/** Runs of the failover loop: ticks one after another, each meeting any groups in any health. The
    history of what each tick did with each group is enough to say when a switch was allowed. */
module FailoverRuns {
  import opened Wrappers
  import opened Failover
  import Damping

  datatype TickInput = TickInput(now: int, groups: seq<GroupInput>, wired: bool, failing: Option<set<string>>)

  /** The runner's records and every visit so far. */
  datatype Loop = Loop(c: Control, d: Detectors, history: seq<Visit>)

  const Fresh := Loop(Control(map[], map[]), Detectors(map[], map[], map[], {}), [])

  function Run(t: Tuning, ticks: seq<TickInput>): Loop {
    if ticks == [] then Fresh
    else
      var before, last := Run(t, ticks[..|ticks| - 1]), ticks[|ticks| - 1];
      var (c, d, visits) :=
        Tick(t, before.c, before.d.(recorded := {}), last.groups, last.wired, last.failing, last.now);
      Loop(c, d, before.history + visits)
  }

  /** The clock has started and does not step back. */
  ghost predicate Clocked(ticks: seq<TickInput>) {
    && (forall i | 0 <= i < |ticks| :: ticks[i].now > 0)
    && (forall i, j | 0 <= i < j < |ticks| :: ticks[i].now <= ticks[j].now)
  }

  predicate Wants(v: Visit, to: string) {
    v.changed && !v.emergency && v.wanted == to
  }

  /** The group still wants the target, or met an emergency it could not act on. */
  predicate Keeps(v: Visit, to: string) {
    v.outcome != Committed && (Wants(v, to) || (v.changed && v.emergency && v.outcome == SelectFailed))
  }

  /** From visit i on, every visit of the group kept wanting the target. */
  ghost predicate WantedSince(h: seq<Visit>, id: string, to: string, i: int, n: nat)
    requires n <= |h|
  {
    0 <= i < n && h[i].g.id == id && Wants(h[i], to) && h[i].outcome != Committed &&
    forall j | i < j < n && h[j].g.id == id :: Keeps(h[j], to)
  }

  ghost predicate TargetAlive(v: Visit) {
    exists m :: m in v.g.health && m.alive && m.id == v.wanted
  }

  /** What a committed switch owes: a live target; and, off a live member, min-dwell since every earlier
      switch of the group and a target wanted without a break for the failback hold. */
  ghost predicate Earned(h: seq<Visit>, n: nat)
    requires n < |h|
  {
    var v := h[n];
    v.outcome == Committed ==>
      && TargetAlive(v)
      && (!v.emergency ==>
            && (forall i | 0 <= i < n && h[i].g.id == v.g.id && h[i].outcome == Committed ::
                  v.now - h[i].now >= v.g.cfg.MinDwell())
            && (exists i :: WantedSince(h, v.g.id, v.wanted, i, n) && v.now - h[i].now >= v.g.cfg.FailbackHold()))
  }

  // ---- The invariant ------------------------------------------------------------------------------

  ghost predicate PendingInv(c: Control, h: seq<Visit>) {
    forall id | id in c.pending ::
      exists i :: WantedSince(h, id, c.pending[id].to, i, |h|) && h[i].now == c.pending[id].since
  }

  /** lastSwitch is the time of the group's last switch. */
  ghost predicate SwitchInv(c: Control, h: seq<Visit>) {
    forall i | 0 <= i < |h| && h[i].outcome == Committed ::
      h[i].g.id in c.lastSwitch && 0 < h[i].now <= c.lastSwitch[h[i].g.id]
  }

  ghost predicate Inv(c: Control, h: seq<Visit>) {
    PendingInv(c, h) && SwitchInv(c, h) && forall n | 0 <= n < |h| :: Earned(h, n)
  }

  ghost predicate UpTo(h: seq<Visit>, now: int) {
    forall i | 0 <= i < |h| :: 0 < h[i].now <= now
  }

  lemma ExtendWanted(h: seq<Visit>, v: Visit, id: string, to: string, i: int)
    requires WantedSince(h, id, to, i, |h|) && (v.g.id == id ==> Keeps(v, to))
    ensures WantedSince(h + [v], id, to, i, |h| + 1)
  {
  }

  lemma EarnedStays(h: seq<Visit>, v: Visit, n: nat)
    requires n < |h| && Earned(h, n)
    ensures Earned(h + [v], n)
  {
    var now := h + [v];
    assert forall j | 0 <= j < |h| :: now[j] == h[j];
    if h[n].outcome == Committed && !h[n].emergency {
      var i :| WantedSince(h, h[n].g.id, h[n].wanted, i, n) && h[n].now - h[i].now >= h[n].g.cfg.FailbackHold();
      assert WantedSince(now, h[n].g.id, h[n].wanted, i, n);
    }
  }

  /** What is known of a verdict before the hold looks at it. */
  ghost predicate Decided(c: Control, v: Visit) {
    v.changed ==>
      && TargetAlive(v)
      && (!v.emergency && v.g.id in c.lastSwitch && c.lastSwitch[v.g.id] > 0 ==>
            v.now - c.lastSwitch[v.g.id] >= v.g.cfg.MinDwell())
  }

  lemma PendingKept(c: Control, h: seq<Visit>, v: Visit, c': Control)
    requires PendingInv(c, h) && (c', v.outcome) == Settle(c, v.g, v.now, v.wanted, v.changed, v.emergency)
    ensures PendingInv(c', h + [v])
  {
    var now := h + [v];
    forall id | id in c'.pending
      ensures exists i :: WantedSince(now, id, c'.pending[id].to, i, |now|) && now[i].now == c'.pending[id].since
    {
      if id in c.pending && c'.pending[id] == c.pending[id] && (id == v.g.id ==> Keeps(v, c.pending[id].to)) {
        var i :| WantedSince(h, id, c.pending[id].to, i, |h|) && h[i].now == c.pending[id].since;
        ExtendWanted(h, v, id, c.pending[id].to, i);
        assert now[i].now == h[i].now;
      } else {
        assert id == v.g.id && c'.pending[id] == PendingSwitch(v.wanted, v.now);
        assert Wants(v, v.wanted) && v.outcome != Committed;
        hide Settle;
        WantedNow(h, v);
        assert now[|h|].now == v.now;
      }
    }
  }

  lemma WantedNow(h: seq<Visit>, v: Visit)
    requires Wants(v, v.wanted) && v.outcome != Committed
    ensures WantedSince(h + [v], v.g.id, v.wanted, |h|, |h| + 1)
  {
  }

  lemma SwitchKept(c: Control, h: seq<Visit>, v: Visit, c': Control)
    requires SwitchInv(c, h) && UpTo(h, v.now) && v.now > 0
    requires (c', v.outcome) == Settle(c, v.g, v.now, v.wanted, v.changed, v.emergency)
    requires forall id | id in c.lastSwitch :: c.lastSwitch[id] <= v.now
    ensures SwitchInv(c', h + [v]) && forall id | id in c'.lastSwitch :: c'.lastSwitch[id] <= v.now
  {
  }

  lemma EarnedNow(c: Control, h: seq<Visit>, v: Visit, c': Control)
    requires PendingInv(c, h) && SwitchInv(c, h) && Decided(c, v)
    requires (c', v.outcome) == Settle(c, v.g, v.now, v.wanted, v.changed, v.emergency)
    ensures Earned(h + [v], |h|)
  {
    var now := h + [v];
    assert forall j | 0 <= j < |h| :: now[j] == h[j];
    if v.outcome == Committed && !v.emergency {
      var i :| WantedSince(h, v.g.id, v.wanted, i, |h|) && h[i].now == c.pending[v.g.id].since;
      assert WantedSince(now, v.g.id, v.wanted, i, |h|);
    }
  }

  lemma VisitKeepsInv(c: Control, h: seq<Visit>, v: Visit, c': Control)
    requires Inv(c, h) && UpTo(h, v.now) && v.now > 0 && Decided(c, v)
    requires (c', v.outcome) == Settle(c, v.g, v.now, v.wanted, v.changed, v.emergency)
    requires forall id | id in c.lastSwitch :: c.lastSwitch[id] <= v.now
    ensures Inv(c', h + [v]) && UpTo(h + [v], v.now)
    ensures forall id | id in c'.lastSwitch :: c'.lastSwitch[id] <= v.now
  {
    PendingKept(c, h, v, c');
    SwitchKept(c, h, v, c');
    EarnedNow(c, h, v, c');
    forall n | 0 <= n < |h + [v]|
      ensures Earned(h + [v], n)
    {
      if n < |h| {
        EarnedStays(h, v, n);
      }
    }
  }

  /** Decide over the filtered health still answers for the raw one. */
  lemma VisitIsDecided(t: Tuning, c: Control, d: Detectors, g: GroupInput, wired: bool,
                       failing: Option<set<string>>, now: int)
    ensures Decided(c, VisitGroup(t, c, d, g, wired, failing, now).2)
  {
    var rawAlive := RawCurrentAlive(d, g, wired, now);
    var members := Filtered(t, d, g.health, failing, now).1;
    var input := InputOf(c, g, members, now, rawAlive);
    FilterKeepsOneAlive(t, d, g.health, failing, now);
    VerdictsAgree(c, d, g, members, wired, now);
    if Decide(input).1 {
      DecideTargetsAlive(input);
    }
  }

  lemma {:induction false} TickKeepsInv(t: Tuning, c: Control, d: Detectors, k: TickInput, h: seq<Visit>, n: nat)
    requires Inv(c, h) && UpTo(h, k.now) && k.now > 0 && n <= |k.groups|
    requires forall id | id in c.lastSwitch :: c.lastSwitch[id] <= k.now
    ensures var (c', _, visits) := Tick(t, c, d, k.groups[..n], k.wired, k.failing, k.now);
            && Inv(c', h + visits) && UpTo(h + visits, k.now)
            && forall id | id in c'.lastSwitch :: c'.lastSwitch[id] <= k.now
  {
    hide Inv, VisitGroup, Settle, Decided;
    if n == 0 {
      assert k.groups[..0] == [] && h + [] == h;
    } else {
      TickKeepsInv(t, c, d, k, h, n - 1);
      assert k.groups[..n][..n - 1] == k.groups[..n - 1];
      var (c1, d1, visits) := Tick(t, c, d, k.groups[..n - 1], k.wired, k.failing, k.now);
      var (c2, d2, v) := VisitGroup(t, c1, d1, k.groups[n - 1], k.wired, k.failing, k.now);
      VisitIsDecided(t, c1, d1, k.groups[n - 1], k.wired, k.failing, k.now);
      VisitSettles(t, c1, d1, k.groups[n - 1], k.wired, k.failing, k.now);
      VisitKeepsInv(c1, h + visits, v, c2);
      assert h + (visits + [v]) == (h + visits) + [v];
    }
  }

  lemma {:induction false} RunKeepsInv(t: Tuning, ticks: seq<TickInput>)
    requires Clocked(ticks)
    ensures var l := Run(t, ticks);
            && Inv(l.c, l.history)
            && (ticks != [] ==> UpTo(l.history, ticks[|ticks| - 1].now))
            && (ticks != [] ==> forall id | id in l.c.lastSwitch :: l.c.lastSwitch[id] <= ticks[|ticks| - 1].now)
            && (ticks == [] ==> l == Fresh)
  {
    if ticks != [] {
      var before, last := ticks[..|ticks| - 1], ticks[|ticks| - 1];
      RunKeepsInv(t, before);
      var l := Run(t, before);
      assert before != [] ==> before[|before| - 1].now <= last.now;
      assert last.groups[..|last.groups|] == last.groups;
      TickKeepsInv(t, l.c, l.d.(recorded := {}), last, l.history, |last.groups|);
    }
  }

  /** In every run of ticks on a started, non-decreasing clock, every committed switch goes to a member
      alive in that tick's raw health; and one that is no emergency comes at least min-dwell after every
      earlier switch of its group, to a target first wanted at least the failback hold before, with each
      visit of the group in between wanting the same target or being an emergency whose Select failed. */
  lemma EverySwitchIsEarned(t: Tuning, ticks: seq<TickInput>, n: nat)
    requires Clocked(ticks) && n < |Run(t, ticks).history|
    ensures Earned(Run(t, ticks).history, n)
  {
    RunKeepsInv(t, ticks);
  }

  /** The clock must have started: a switch at time 0 reads as none, and min-dwell does not hold the next. */
  lemma SwitchAtZeroIsForgotten(g: GroupInput, members: seq<MemberHealth>, now: int)
    requires g.policy == Fallback && MemberAlive(members, g.current)
    requires members != [] && members[0].alive && members[0].id != "" && members[0].id != g.current
    ensures Decide(InputOf(Control(map[g.id := 0], map[]), g, members, now, true)).1
  {
  }

  // ---- And it comes when it is earned -------------------------------------------------------------

  /** The target has been wanted for the failback hold without a break. */
  ghost predicate Waited(h: seq<Visit>, n: nat)
    requires n < |h|
  {
    var v := h[n];
    exists i :: WantedSince(h, v.g.id, v.wanted, i, n) &&
                v.now - h[i].now >= if v.g.cfg.failbackHoldMS > 0 then v.g.cfg.failbackHoldMS else 30000
  }

  /** A change is applied, or its Select failed, exactly in an emergency or after the hold. */
  ghost predicate Prompt(h: seq<Visit>, n: nat)
    requires n < |h|
  {
    var v := h[n];
    && (v.outcome == Unchanged <==> !v.changed)
    && (v.outcome == Committed <==> v.changed && v.g.selectOk && (v.emergency || Waited(h, n)))
    && (v.outcome == SelectFailed <==> v.changed && !v.g.selectOk && (v.emergency || Waited(h, n)))
  }

  /** Whatever has been wanted without a break since visit i has been pending since then at least. */
  ghost predicate WantsArePending(c: Control, h: seq<Visit>) {
    forall id, to, i | WantedSince(h, id, to, i, |h|) ::
      id in c.pending && c.pending[id].to == to && c.pending[id].since <= h[i].now
  }

  lemma PromptStays(h: seq<Visit>, v: Visit, n: nat)
    requires n < |h| && Prompt(h, n)
    ensures Prompt(h + [v], n)
  {
    var now := h + [v];
    forall i ensures WantedSince(now, h[n].g.id, h[n].wanted, i, n) <==>
                     WantedSince(h, h[n].g.id, h[n].wanted, i, n)
    {
      SameWanted(h, v, h[n].g.id, h[n].wanted, i, n);
    }
  }

  lemma SameWanted(h: seq<Visit>, v: Visit, id: string, to: string, i: int, n: nat)
    requires n <= |h|
    ensures WantedSince(h + [v], id, to, i, n) <==> WantedSince(h, id, to, i, n)
  {
    assert forall j | 0 <= j < n :: (h + [v])[j] == h[j];
  }

  lemma PromptNow(c: Control, h: seq<Visit>, v: Visit, c': Control)
    requires PendingInv(c, h) && WantsArePending(c, h)
    requires (c', v.outcome) == Settle(c, v.g, v.now, v.wanted, v.changed, v.emergency)
    ensures Prompt(h + [v], |h|)
  {
    var now := h + [v];
    forall i ensures WantedSince(now, v.g.id, v.wanted, i, |h|) <==> WantedSince(h, v.g.id, v.wanted, i, |h|) {
      SameWanted(h, v, v.g.id, v.wanted, i, |h|);
    }
    if v.g.id in c.pending && c.pending[v.g.id].to == v.wanted {
      var i :| WantedSince(h, v.g.id, v.wanted, i, |h|) && h[i].now == c.pending[v.g.id].since;
      assert WantedSince(now, v.g.id, v.wanted, i, |h|) && now[i] == h[i];
    }
    hide WantedSince;
  }

  lemma WantsStayPending(c: Control, h: seq<Visit>, v: Visit, c': Control)
    requires PendingInv(c, h) && WantsArePending(c, h) && UpTo(h, v.now)
    requires (c', v.outcome) == Settle(c, v.g, v.now, v.wanted, v.changed, v.emergency)
    ensures WantsArePending(c', h + [v])
  {
    var now := h + [v];
    forall id, to, i | WantedSince(now, id, to, i, |now|)
      ensures id in c'.pending && c'.pending[id].to == to && c'.pending[id].since <= now[i].now
    {
      if i < |h| {
        assert WantedSince(h, id, to, i, |h|) by { assert forall j | 0 <= j < |h| :: now[j] == h[j]; }
        assert v.g.id == id ==> Keeps(now[|h|], to);
      } else if id in c.pending && c.pending[id].to == to {
        var k :| WantedSince(h, id, to, k, |h|) && h[k].now == c.pending[id].since;
      }
    }
  }

  lemma VisitSettles(t: Tuning, c: Control, d: Detectors, g: GroupInput, wired: bool, failing: Option<set<string>>,
                     now: int)
    ensures var (c', _, v) := VisitGroup(t, c, d, g, wired, failing, now);
            v.now == now && (c', v.outcome) == Settle(c, v.g, v.now, v.wanted, v.changed, v.emergency)
  {
    hide Decide, Filtered, Settle, RawCurrentAlive;
  }

  lemma {:induction false} TickIsPrompt(t: Tuning, c: Control, d: Detectors, k: TickInput, h: seq<Visit>, n: nat)
    requires Inv(c, h) && UpTo(h, k.now) && k.now > 0 && n <= |k.groups| && AllPrompt(c, h)
    requires forall id | id in c.lastSwitch :: c.lastSwitch[id] <= k.now
    ensures var (c', _, visits) := Tick(t, c, d, k.groups[..n], k.wired, k.failing, k.now);
            AllPrompt(c', h + visits)
  {
    hide AllPrompt, Inv, UpTo, VisitGroup, Settle;
    if n == 0 {
      assert k.groups[..0] == [] && h + [] == h;
    } else {
      TickIsPrompt(t, c, d, k, h, n - 1);
      TickKeepsInv(t, c, d, k, h, n - 1);
      assert k.groups[..n][..n - 1] == k.groups[..n - 1];
      var (c1, d1, visits) := Tick(t, c, d, k.groups[..n - 1], k.wired, k.failing, k.now);
      var (c2, d2, v) := VisitGroup(t, c1, d1, k.groups[n - 1], k.wired, k.failing, k.now);
      VisitSettles(t, c1, d1, k.groups[n - 1], k.wired, k.failing, k.now);
      NextPrompt(c1, h + visits, v, c2);
      assert h + (visits + [v]) == h + visits + [v];
    }
  }

  ghost predicate AllPrompt(c: Control, h: seq<Visit>) {
    WantsArePending(c, h) && forall i | 0 <= i < |h| :: Prompt(h, i)
  }

  lemma NextPrompt(c: Control, h: seq<Visit>, v: Visit, c': Control)
    requires Inv(c, h) && UpTo(h, v.now) && AllPrompt(c, h)
    requires (c', v.outcome) == Settle(c, v.g, v.now, v.wanted, v.changed, v.emergency)
    ensures AllPrompt(c', h + [v])
  {
    hide Prompt, WantsArePending, PendingInv, SwitchInv, Earned, Settle, UpTo;
    PromptNow(c, h, v, c');
    WantsStayPending(c, h, v, c');
    forall i | 0 <= i < |h + [v]| ensures Prompt(h + [v], i) {
      if i < |h| { PromptStays(h, v, i); }
    }
  }

  lemma {:induction false} RunIsPrompt(t: Tuning, ticks: seq<TickInput>)
    requires Clocked(ticks)
    ensures AllPrompt(Run(t, ticks).c, Run(t, ticks).history)
  {
    if ticks != [] {
      var before, last := ticks[..|ticks| - 1], ticks[|ticks| - 1];
      RunIsPrompt(t, before);
      RunKeepsInv(t, before);
      var l := Run(t, before);
      assert before != [] ==> before[|before| - 1].now <= last.now;
      assert last.groups[..|last.groups|] == last.groups;
      hide Tick, AllPrompt;
      TickIsPrompt(t, l.c, l.d.(recorded := {}), last, l.history, |last.groups|);
    }
  }

  /** In every such run a change is applied as soon as it is due and not before: at once in an emergency, else
      when its target has been wanted for the hold; a Select that fails is tried again the same way. */
  lemma SwitchesWhenEarned(t: Tuning, ticks: seq<TickInput>, n: nat)
    requires Clocked(ticks) && n < |Run(t, ticks).history|
    ensures Prompt(Run(t, ticks).history, n)
  {
    RunIsPrompt(t, ticks);
  }

  // ---- What the detectors were told ---------------------------------------------------------------

  predicate Named(health: seq<MemberHealth>, id: string) { exists m | m in health :: m.id == id }

  predicate HasMember(groups: seq<GroupInput>, id: string) { exists g | g in groups :: Named(g.health, id) }

  /** What real traffic said of the member: one report in a tick that has any, whatever number of groups share it. */
  function ReportsOf(ticks: seq<TickInput>, id: string): seq<Report> {
    if ticks == [] then []
    else
      var last := ticks[|ticks| - 1];
      ReportsOf(ticks[..|ticks| - 1], id) +
      if last.failing.Some? && HasMember(last.groups, id) then [Report(id !in last.failing.value, last.now)] else []
  }

  function OutlierOf(d: Detectors, id: string): OutlierState { if id in d.outl then d.outl[id] else NEVER_FAILED }

  /** From d to e the member has been reported, if it was due, and not otherwise. */
  predicate ReportedOnce(t: Tuning, d: Detectors, e: Detectors, failing: Option<set<string>>, now: int, id: string,
                         seen: bool)
  {
    && (id in e.recorded <==> id in d.recorded || (failing.Some? && seen))
    && OutlierOf(e, id) ==
       if failing.Some? && seen && id !in d.recorded
       then Recorded(t.outl, OutlierOf(d, id), id !in failing.value, now) else OutlierOf(d, id)
  }

  lemma {:induction false} ObserveReports(t: Tuning, d: Detectors, health: seq<MemberHealth>,
                                          failing: Option<set<string>>, now: int, id: string)
    ensures ReportedOnce(t, d, Observe(t, d, health, failing, now), failing, now, id, Named(health, id))
  {
    hide Recorded, Dampened;
    if health != [] {
      var init, last := health[..|health| - 1], health[|health| - 1];
      ObserveReports(t, d, init, failing, now, id);
      assert health == init + [last];
      assert Named(health, id) <==> Named(init, id) || last.id == id;
    }
  }

  lemma {:induction false} TickReports(t: Tuning, c: Control, d: Detectors, groups: seq<GroupInput>, wired: bool,
                                       failing: Option<set<string>>, now: int, id: string)
    ensures ReportedOnce(t, d.(recorded := {}), Tick(t, c, d, groups, wired, failing, now).1, failing, now, id,
                         HasMember(groups, id))
  {
    var d0 := d.(recorded := {});
    hide ReportedOnce, HasMember, Named;
    MoreMembers(groups, id);
    if groups == [] {
      NotReported(t, d0, failing, now, id);
    } else {
      var init, health := groups[..|groups| - 1], groups[|groups| - 1].health;
      TickReports(t, c, d, init, wired, failing, now, id);
      TickDetectors(t, c, d, groups, wired, failing, now);
      var d1 := Tick(t, c, d, init, wired, failing, now).1;
      hide Tick;
      VisitReports(t, d0, d1, health, failing, now, id, HasMember(init, id));
    }
  }

  lemma VisitReports(t: Tuning, d: Detectors, d1: Detectors, health: seq<MemberHealth>, failing: Option<set<string>>,
                     now: int, id: string, seen: bool)
    requires ReportedOnce(t, d, d1, failing, now, id, seen)
    ensures var d2 := Observe(t, d1, health, failing, now);
            ReportedOnce(t, d, d2.(damp := Hide(t, d2, health, failing.Some?, now).0), failing, now, id,
                         seen || Named(health, id))
  {
    ObserveReports(t, d1, health, failing, now, id);
    hide Recorded, Observe, Hide, Named;
  }

  lemma MoreMembers(groups: seq<GroupInput>, id: string)
    ensures groups == [] ==> !HasMember(groups, id)
    ensures groups != [] ==> (HasMember(groups, id) <==> HasMember(groups[..|groups| - 1], id) ||
                                                         Named(groups[|groups| - 1].health, id))
  {
    hide Named;
    if groups != [] { assert groups == groups[..|groups| - 1] + [groups[|groups| - 1]]; }
  }

  lemma NotReported(t: Tuning, d: Detectors, failing: Option<set<string>>, now: int, id: string)
    ensures ReportedOnce(t, d, d, failing, now, id, false)
  {
  }

  /** What the last group's visit does to the detectors: it observes, then asks the damper. */
  lemma TickDetectors(t: Tuning, c: Control, d: Detectors, groups: seq<GroupInput>, wired: bool,
                      failing: Option<set<string>>, now: int)
    requires groups != []
    ensures var (init, health) := (groups[..|groups| - 1], groups[|groups| - 1].health);
            var seen := Observe(t, Tick(t, c, d, init, wired, failing, now).1, health, failing, now);
            Tick(t, c, d, groups, wired, failing, now).1 == seen.(damp := Hide(t, seen, health, failing.Some?, now).0)
  {
    hide Observe, Hide, Decide, Settle, RawCurrentAlive, InputOf;
  }

  /** Over every run each member's ejection state is what one report a tick makes of it: a member that several
      groups share is not ejected sooner. */
  lemma {:induction false} OneReportATick(t: Tuning, ticks: seq<TickInput>, id: string)
    ensures OutlierOf(Run(t, ticks).d, id) == Reported(t.outl, ReportsOf(ticks, id))
  {
    if ticks != [] {
      var before, last := ticks[..|ticks| - 1], ticks[|ticks| - 1];
      var l := Run(t, before);
      OneReportATick(t, before, id);
      TickReports(t, l.c, l.d.(recorded := {}), last.groups, last.wired, last.failing, last.now, id);
      var rs := ReportsOf(before, id);
      assert rs + [] == rs;
      if last.failing.Some? && HasMember(last.groups, id) {
        NextReported(t, rs, Report(id !in last.failing.value, last.now));
      }
      hide Tick, Recorded, Reported, HasMember;
    }
  }

  lemma NextReported(t: Tuning, rs: seq<Report>, r: Report)
    ensures Reported(t.outl, rs + [r]) == Recorded(t.outl, Reported(t.outl, rs), r.success, r.at)
  {
    var next := rs + [r];
    assert next[..|next| - 1] == rs;
    ReportedNext(t.outl, next);
  }

  /** The member's last sighting was alive. */
  function AliveBefore(seen: bool, health: seq<MemberHealth>, id: string): bool {
    if health == [] then seen
    else if health[|health| - 1].id == id then health[|health| - 1].alive
    else AliveBefore(seen, health[..|health| - 1], id)
  }

  /** A flap for each sighting of the member dead after one alive. */
  function Drops(seen: bool, health: seq<MemberHealth>, id: string, now: int): seq<Damping.Event> {
    if health == [] then []
    else
      var init, last := health[..|health| - 1], health[|health| - 1];
      Drops(seen, init, id, now) +
      if last.id == id && !last.alive && AliveBefore(seen, init, id) then [Damping.Flap(now)] else []
  }

  /** A query for each sighting alive. */
  function Queries(health: seq<MemberHealth>, id: string, now: int): seq<Damping.Event> {
    if health == [] then []
    else
      var last := health[|health| - 1];
      Queries(health[..|health| - 1], id, now) + if last.id == id && last.alive then [Damping.Query(now)] else []
  }

  /** What the groups' health, one after another, tells the damper of a member, and whether it was last seen alive. */
  function GroupCalls(seen: bool, groups: seq<GroupInput>, id: string, now: int): (seq<Damping.Event>, bool) {
    if groups == [] then ([], seen)
    else
      var (calls, was) := GroupCalls(seen, groups[..|groups| - 1], id, now);
      var health := groups[|groups| - 1].health;
      (calls + Drops(was, health, id, now) + Queries(health, id, now), AliveBefore(was, health, id))
  }

  function CallsOf(ticks: seq<TickInput>, id: string): (seq<Damping.Event>, bool) {
    if ticks == [] then ([], false)
    else
      var (calls, was) := CallsOf(ticks[..|ticks| - 1], id);
      var last := ticks[|ticks| - 1];
      var (more, is_) := GroupCalls(was, last.groups, id, last.now);
      (calls + more, is_)
  }

  /** The detectors' record of the member is what these calls make of it. */
  predicate Told(t: Tuning, d: Detectors, es: seq<Damping.Event>, alive: bool, id: string) {
    && (if id in d.damp then Damping.After(t.damp, es) == Some(d.damp[id]) else Damping.After(t.damp, es) == None)
    && ((id in d.lastAlive && d.lastAlive[id]) == alive)
  }

  lemma OneCall(t: Tuning, es: seq<Damping.Event>, e: Damping.Event)
    ensures Damping.After(t.damp, es + [e]) ==
            var s := Damping.After(t.damp, es);
            match e
            case Flap(at) => Some(Damping.Flapped(t.damp, if s.Some? then s.value else Damping.UNSEEN, at))
            case Query(at) => if s.Some? then Some(Damping.Queried(t.damp, s.value, at)) else None
  {
    assert (es + [e])[..|es|] == es;
    hide Damping.DecayTo;
  }

  lemma {:induction false} ObserveTells(t: Tuning, d: Detectors, es: seq<Damping.Event>, seen: bool,
                                        health: seq<MemberHealth>, failing: Option<set<string>>, now: int, id: string)
    requires Told(t, d, es, seen, id)
    ensures Told(t, Observe(t, d, health, failing, now), es + Drops(seen, health, id, now),
                 AliveBefore(seen, health, id), id)
  {
    hide Damping.Flapped, Damping.Queried, Damping.After, Recorded;
    if health == [] {
      assert es + [] == es;
    } else {
      var init, last := health[..|health| - 1], health[|health| - 1];
      ObserveTells(t, d, es, seen, init, failing, now, id);
      var told := es + Drops(seen, init, id, now);
      OneCall(t, told, Damping.Flap(now));
      assert es + (Drops(seen, init, id, now) + [Damping.Flap(now)]) == told + [Damping.Flap(now)];
      assert es + (Drops(seen, init, id, now) + []) == told;
    }
  }

  lemma {:induction false} HideAsks(t: Tuning, d: Detectors, es: seq<Damping.Event>, alive: bool,
                                    health: seq<MemberHealth>, wired: bool, now: int, id: string)
    requires Told(t, d, es, alive, id)
    ensures Told(t, d.(damp := Hide(t, d, health, wired, now).0), es + Queries(health, id, now), alive, id)
  {
    hide Damping.Flapped, Damping.Queried, Damping.After;
    if health == [] {
      assert es + [] == es;
    } else {
      var init, last := health[..|health| - 1], health[|health| - 1];
      HideAsks(t, d, es, alive, init, wired, now, id);
      var asked := es + Queries(init, id, now);
      OneCall(t, asked, Damping.Query(now));
      assert es + (Queries(init, id, now) + [Damping.Query(now)]) == asked + [Damping.Query(now)];
      assert es + (Queries(init, id, now) + []) == asked;
    }
  }

  lemma {:induction false} TickTells(t: Tuning, c: Control, d: Detectors, es: seq<Damping.Event>, seen: bool,
                                     groups: seq<GroupInput>, wired: bool, failing: Option<set<string>>, now: int,
                                     id: string)
    requires Told(t, d, es, seen, id)
    ensures var (calls, is_) := GroupCalls(seen, groups, id, now);
            Told(t, Tick(t, c, d, groups, wired, failing, now).1, es + calls, is_, id)
  {
    hide VisitGroup, Observe, Hide, Drops, Queries, AliveBefore, Damping.After;
    if groups == [] {
      assert es + [] == es;
    } else {
      var init, health := groups[..|groups| - 1], groups[|groups| - 1].health;
      TickTells(t, c, d, es, seen, init, wired, failing, now, id);
      TickDetectors(t, c, d, groups, wired, failing, now);
      hide Tick, Told;
      var (calls, was) := GroupCalls(seen, init, id, now);
      VisitTells(t, Tick(t, c, d, init, wired, failing, now).1, es + calls, was, health, failing, now, id);
      assert es + (calls + Drops(was, health, id, now) + Queries(health, id, now)) ==
             es + calls + Drops(was, health, id, now) + Queries(health, id, now);
    }
  }

  lemma VisitTells(t: Tuning, d: Detectors, es: seq<Damping.Event>, seen: bool, health: seq<MemberHealth>,
                   failing: Option<set<string>>, now: int, id: string)
    requires Told(t, d, es, seen, id)
    ensures var d2 := Observe(t, d, health, failing, now);
            Told(t, d2.(damp := Hide(t, d2, health, failing.Some?, now).0),
                 es + Drops(seen, health, id, now) + Queries(health, id, now), AliveBefore(seen, health, id), id)
  {
    ObserveTells(t, d, es, seen, health, failing, now, id);
    HideAsks(t, Observe(t, d, health, failing, now), es + Drops(seen, health, id, now), AliveBefore(seen, health, id),
             health, failing.Some?, now, id);
  }

  /** Over every run each member's damper state is what these calls make of it: a flap for each drop from alive to
      dead between two sightings in a row, which groups that share the member do not count again. */
  lemma {:induction false} OneFlapADrop(t: Tuning, ticks: seq<TickInput>, id: string)
    ensures Told(t, Run(t, ticks).d, CallsOf(ticks, id).0, CallsOf(ticks, id).1, id)
  {
    if ticks != [] {
      var before, last := ticks[..|ticks| - 1], ticks[|ticks| - 1];
      var l := Run(t, before);
      OneFlapADrop(t, before, id);
      var (calls, was) := CallsOf(before, id);
      hide Tick, Damping.After, GroupCalls;
      TickTells(t, l.c, l.d.(recorded := {}), calls, was, last.groups, last.wired, last.failing, last.now, id);
    }
  }
}
