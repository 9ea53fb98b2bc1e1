/** Group health in internal/health/monitor.go: recordDerivedGroups derives every group from its members,
    which may be groups themselves, by passes over the groups that update one map in place. After at most
    as many passes as there are groups each group's state is what reachability says. */
module Health {

  datatype State = Unknown | Down | Alive

  datatype Derived = Derived(state: State, latency: int)

  datatype Group = Group(id: string, members: seq<string>)

  const DIRECT := "direct"
  const NOTHING_KNOWN := Derived(Unknown, 0)

  ghost predicate DistinctIds(groups: seq<Group>) {
    forall i, j | 0 <= i < j < |groups| :: groups[i].id != groups[j].id
  }

  // ---- The loop and its function ------------------------------------------------------------------

  function FirstAlive(byID: map<string, Derived>, members: seq<string>): Derived {
    if members == [] then NOTHING_KNOWN
    else
      var before := FirstAlive(byID, members[..|members| - 1]);
      var last := members[|members| - 1];
      if before.state != Alive && last in byID && byID[last].state == Alive then byID[last] else before
  }

  predicate AnyDown(byID: map<string, Derived>, members: seq<string>) {
    members != [] &&
    (AnyDown(byID, members[..|members| - 1]) ||
     (members[|members| - 1] in byID && byID[members[|members| - 1]].state == Down))
  }

  function Derive(byID: map<string, Derived>, members: seq<string>): Derived {
    var next := FirstAlive(byID, members);
    if next.state != Alive && AnyDown(byID, members) then Derived(Down, 0) else next
  }

  /** One pass, as far as the first n groups. */
  function Sweep(groups: seq<Group>, n: nat, byID: map<string, Derived>): map<string, Derived>
    requires n <= |groups|
  {
    if n == 0 then byID
    else
      var m := Sweep(groups, n - 1, byID);
      m[groups[n - 1].id := Derive(m, groups[n - 1].members)]
  }

  function Passes(groups: seq<Group>, byID: map<string, Derived>, k: nat): map<string, Derived> {
    if k == 0 then byID else Sweep(groups, |groups|, Passes(groups, byID, k - 1))
  }

  /** What the passes start from: the recorded targets, direct, and every group as unknown. */
  function Seed(stats: map<string, Derived>, groups: seq<Group>, n: nat): map<string, Derived>
    requires n <= |groups|
  {
    if n == 0 then stats[DIRECT := Derived(Alive, 0)]
    else Seed(stats, groups, n - 1)[groups[n - 1].id := NOTHING_KNOWN]
  }

  method DeriveLoop(byID: map<string, Derived>, members: seq<string>) returns (next: Derived)
    ensures next == Derive(byID, members)
  {
    next := NOTHING_KNOWN;
    var anyDown := false;
    for i := 0 to |members|
      invariant next == FirstAlive(byID, members[..i]) && anyDown == AnyDown(byID, members[..i])
    {
      assert members[..i + 1][..i] == members[..i];
      var member := members[i];
      if member in byID {
        match byID[member].state {
          case Alive =>
            if next.state != Alive {
              next := byID[member];
            }
          case Down =>
            anyDown := true;
          case Unknown =>
        }
      }
    }
    assert members[..|members|] == members;
    if next.state != Alive && anyDown {
      next := Derived(Down, 0);
    }
  }

  method OnePass(groups: seq<Group>, byID: map<string, Derived>) returns (out: map<string, Derived>, changed: bool)
    requires forall g | g in groups :: g.id in byID
    ensures out == Sweep(groups, |groups|, byID) && (!changed ==> out == byID)
  {
    out, changed := byID, false;
    for i := 0 to |groups|
      invariant out == Sweep(groups, i, byID) && (!changed ==> out == byID)
      invariant forall g | g in groups :: g.id in out
    {
      var next := DeriveLoop(out, groups[i].members);
      if out[groups[i].id] != next {
        out := out[groups[i].id := next];
        changed := true;
      } else {
        assert out[groups[i].id := next] == out;
      }
    }
  }

  /** recordDerivedGroups, up to recording what it found. */
  method DeriveGroups(stats: map<string, Derived>, groups: seq<Group>) returns (byID: map<string, Derived>)
    ensures byID == Passes(groups, Seed(stats, groups, |groups|), |groups|)
  {
    byID := stats[DIRECT := Derived(Alive, 0)];
    for i := 0 to |groups|
      invariant byID == Seed(stats, groups, i)
    {
      byID := byID[groups[i].id := NOTHING_KNOWN];
    }
    ghost var seed := byID;
    SeedHasGroups(stats, groups, |groups|);
    var pass := 0;
    while pass < |groups|
      invariant 0 <= pass <= |groups| && byID == Passes(groups, seed, pass)
      invariant forall g | g in groups :: g.id in byID
    {
      var next, changed := OnePass(groups, byID);
      if !changed {
        QuietPassIsLast(groups, seed, pass, |groups|);
        break;
      }
      SweepKeepsKeys(groups, |groups|, byID);
      byID := next;
      pass := pass + 1;
    }
  }

  lemma {:induction false} SeedHasGroups(stats: map<string, Derived>, groups: seq<Group>, n: nat)
    requires n <= |groups|
    ensures forall i | 0 <= i < n :: groups[i].id in Seed(stats, groups, n) &&
                                     Seed(stats, groups, n)[groups[i].id] == NOTHING_KNOWN
  {
    if n > 0 {
      SeedHasGroups(stats, groups, n - 1);
    }
  }

  lemma {:induction false} SweepKeepsKeys(groups: seq<Group>, n: nat, byID: map<string, Derived>)
    requires n <= |groups|
    ensures forall x | x in byID :: x in Sweep(groups, n, byID)
    ensures forall x | x in byID && (forall g | g in groups :: g.id != x) ::
              Sweep(groups, n, byID)[x] == byID[x]
    ensures forall x | x in Sweep(groups, n, byID) :: x in byID || exists g | g in groups :: g.id == x
  {
    if n > 0 {
      SweepKeepsKeys(groups, n - 1, byID);
      assert groups[n - 1] in groups;
    }
  }

  lemma {:induction false} QuietPassIsLast(groups: seq<Group>, seed: map<string, Derived>, k: nat, n: nat)
    requires k <= n && Sweep(groups, |groups|, Passes(groups, seed, k)) == Passes(groups, seed, k)
    ensures Passes(groups, seed, n) == Passes(groups, seed, k)
    decreases n - k
  {
    if k < n {
      QuietPassIsLast(groups, seed, k, n - 1);
    }
  }

  // ---- Reachability -------------------------------------------------------------------------------

  /** A way from group p[0] through member groups to a target in targets. */
  ghost predicate Leads(groups: seq<Group>, p: seq<string>, targets: set<string>) {
    && |p| >= 2 && p[|p| - 1] in targets
    && forall i | 0 <= i < |p| - 1 :: Contains(groups, p[i], p[i + 1])
  }

  predicate Contains(groups: seq<Group>, id: string, member: string) {
    exists g | g in groups :: g.id == id && member in g.members
  }

  ghost predicate Reaches(groups: seq<Group>, id: string, targets: set<string>) {
    exists p :: Leads(groups, p, targets) && p[0] == id
  }

  /** The groups from which some target is at most k memberships away. */
  ghost function Within(groups: seq<Group>, targets: set<string>, k: nat): set<string> {
    if k == 0 then {}
    else
      set g | g in groups && (exists x | x in g.members :: x in targets || x in Within(groups, targets, k - 1)) :: g.id
  }

  ghost function GroupIds(groups: seq<Group>): set<string> {
    set g | g in groups :: g.id
  }

  lemma WithinStep(groups: seq<Group>, targets: set<string>, k: nat, id: string, x: string)
    requires Contains(groups, id, x) && (x in targets || x in Within(groups, targets, k))
    ensures id in Within(groups, targets, k + 1)
  {
  }

  lemma {:induction false} WithinGrows(groups: seq<Group>, targets: set<string>, j: nat, k: nat)
    requires j <= k
    ensures Within(groups, targets, j) <= Within(groups, targets, k) <= GroupIds(groups)
    decreases k
  {
    if k > 0 {
      if j > 0 {
        WithinGrows(groups, targets, j - 1, k - 1);
      }
    }
  }

  lemma {:induction false} WithinStable(groups: seq<Group>, targets: set<string>, j: nat, k: nat)
    requires j <= k && Within(groups, targets, j) == Within(groups, targets, j + 1)
    ensures Within(groups, targets, k) == Within(groups, targets, j)
    decreases k
  {
    if j < k {
      WithinStable(groups, targets, j, k - 1);
    }
  }

  /** Each round adds a group or is the last that could. */
  lemma {:induction false} WithinCounts(groups: seq<Group>, targets: set<string>, k: nat)
    ensures |Within(groups, targets, k)| >= k || Within(groups, targets, k) == Within(groups, targets, k + 1)
  {
    if k > 0 {
      var a, b, c := Within(groups, targets, k - 1), Within(groups, targets, k), Within(groups, targets, k + 1);
      WithinCounts(groups, targets, k - 1);
      WithinGrows(groups, targets, k - 1, k);
      if a == b {
        WithinStable(groups, targets, k - 1, k);
        WithinStable(groups, targets, k - 1, k + 1);
      } else {
        Fewer(a, b);
      }
    }
  }

  lemma Fewer(a: set<string>, b: set<string>)
    requires a <= b
    ensures |a| <= |b| && (a != b ==> |a| < |b|)
  {
    assert b == a + (b - a);
  }

  lemma {:induction false} FewIds(groups: seq<Group>)
    ensures |GroupIds(groups)| <= |groups|
  {
    if groups != [] {
      var before, last := groups[..|groups| - 1], groups[|groups| - 1];
      FewIds(before);
      assert GroupIds(groups) == GroupIds(before) + {last.id};
    }
  }

  /** As many rounds as there are groups reach everything there is to reach. */
  lemma WithinIsClosed(groups: seq<Group>, targets: set<string>, k: nat)
    ensures Within(groups, targets, |groups| + 1) == Within(groups, targets, |groups|)
    ensures Within(groups, targets, k) <= Within(groups, targets, |groups|)
  {
    hide Within, GroupIds;
    var n := |groups|;
    var all, more := Within(groups, targets, n), Within(groups, targets, n + 1);
    WithinCounts(groups, targets, n);
    WithinGrows(groups, targets, n, n + 1);
    FewIds(groups);
    Fewer(all, more);
    Fewer(more, GroupIds(groups));
    if k <= n {
      WithinGrows(groups, targets, k, n);
    } else {
      WithinStable(groups, targets, n, k);
    }
  }

  lemma {:induction false} PathIsWithin(groups: seq<Group>, targets: set<string>, p: seq<string>)
    requires Leads(groups, p, targets)
    ensures p[0] in Within(groups, targets, |p| - 1)
    decreases |p|
  {
    if |p| > 2 {
      PathIsWithin(groups, targets, p[1..]);
    }
    WithinStep(groups, targets, |p| - 2, p[0], p[1]);
  }

  lemma {:induction false} WithinHasPath(groups: seq<Group>, targets: set<string>, k: nat, id: string)
    returns (p: seq<string>)
    requires id in Within(groups, targets, k)
    ensures Leads(groups, p, targets) && p[0] == id
  {
    var g :| g in groups && g.id == id &&
              exists x | x in g.members :: x in targets || x in Within(groups, targets, k - 1);
    var x :| x in g.members && (x in targets || x in Within(groups, targets, k - 1));
    if x in targets {
      p := [id, x];
    } else {
      var q := WithinHasPath(groups, targets, k - 1, x);
      p := [id] + q;
    }
  }

  lemma ReachesIsWithin(groups: seq<Group>, targets: set<string>, id: string)
    ensures Reaches(groups, id, targets) <==> id in Within(groups, targets, |groups|)
  {
    if p :| Leads(groups, p, targets) && p[0] == id {
      PathIsWithin(groups, targets, p);
      WithinIsClosed(groups, targets, |p| - 1);
    }
    if id in Within(groups, targets, |groups|) {
      var p := WithinHasPath(groups, targets, |groups|, id);
    }
  }

  // ---- The passes find it -------------------------------------------------------------------------

  /** Alive over Down over Unknown. */
  function Rank(byID: map<string, Derived>, id: string): nat {
    if id !in byID then 0
    else match byID[id].state
      case Unknown => 0
      case Down => 1
      case Alive => 2
  }

  function RankOf(d: Derived): nat {
    if d.state == Unknown then 0 else if d.state == Down then 1 else 2
  }

  /** A group's derived rank is the highest among its members. */
  lemma {:induction false} DeriveIsHighest(byID: map<string, Derived>, members: seq<string>)
    ensures forall x | x in members :: Rank(byID, x) <= RankOf(Derive(byID, members))
    ensures RankOf(Derive(byID, members)) > 0 ==>
              exists x | x in members :: Rank(byID, x) == RankOf(Derive(byID, members))
    ensures Derive(byID, members).state == Alive ==>
              exists x | x in members :: x in byID && byID[x] == Derive(byID, members)
  {
    if members != [] {
      var before, last := members[..|members| - 1], members[|members| - 1];
      DeriveIsHighest(byID, before);
      assert forall x | x in members :: x in before || x == last;
      assert forall x | x in before :: x in members;
      assert last in members;
    }
  }

  /** Nobody stands higher than its members would put it now. */
  ghost predicate Supported(groups: seq<Group>, byID: map<string, Derived>) {
    forall g | g in groups :: Rank(byID, g.id) <= RankOf(Derive(byID, g.members))
  }

  ghost predicate Below(a: map<string, Derived>, b: map<string, Derived>) {
    forall x :: Rank(a, x) <= Rank(b, x)
  }

  lemma DeriveMonotone(a: map<string, Derived>, b: map<string, Derived>, members: seq<string>)
    requires Below(a, b)
    ensures RankOf(Derive(a, members)) <= RankOf(Derive(b, members))
  {
    DeriveIsHighest(a, members);
    DeriveIsHighest(b, members);
  }

  lemma UpdateRaises(groups: seq<Group>, byID: map<string, Derived>, g: Group)
    requires DistinctIds(groups) && Supported(groups, byID) && g in groups
    ensures var next := byID[g.id := Derive(byID, g.members)];
            Below(byID, next) && Supported(groups, next) && Rank(next, g.id) == RankOf(Derive(byID, g.members))
  {
    var next := byID[g.id := Derive(byID, g.members)];
    forall h | h in groups
      ensures Rank(next, h.id) <= RankOf(Derive(next, h.members))
    {
      DeriveMonotone(byID, next, h.members);
      if h.id == g.id {
        var i :| 0 <= i < |groups| && groups[i] == g;
        var j :| 0 <= j < |groups| && groups[j] == h;
      }
    }
  }

  /** A pass only raises, and every group ends up at least as high as its members stood before it. */
  lemma {:induction false} SweepRaises(groups: seq<Group>, n: nat, byID: map<string, Derived>)
    requires DistinctIds(groups) && Supported(groups, byID) && n <= |groups|
    ensures var out := Sweep(groups, n, byID);
            && Below(byID, out) && Supported(groups, out)
            && forall i | 0 <= i < n :: RankOf(Derive(byID, groups[i].members)) <= Rank(out, groups[i].id)
  {
    hide Derive;
    if n > 0 {
      SweepRaises(groups, n - 1, byID);
      var m := Sweep(groups, n - 1, byID);
      UpdateRaises(groups, m, groups[n - 1]);
      DeriveMonotone(byID, m, groups[n - 1].members);
    }
  }

  /** The targets of rank r or higher: what is in the seed and is no group. */
  ghost function Targets(groups: seq<Group>, seed: map<string, Derived>, r: nat): set<string> {
    set x | x in seed && x !in GroupIds(groups) && Rank(seed, x) >= r
  }

  ghost predicate IsSeed(groups: seq<Group>, seed: map<string, Derived>) {
    forall g | g in groups :: g.id in seed && seed[g.id] == NOTHING_KNOWN
  }

  /** After k passes, whatever is at most k memberships from a target of rank r has that rank. */
  lemma {:induction false} PassesReach(groups: seq<Group>, seed: map<string, Derived>, r: nat, k: nat)
    requires DistinctIds(groups) && IsSeed(groups, seed) && r > 0
    ensures var m := Passes(groups, seed, k);
            && Supported(groups, m) && Below(seed, m)
            && forall id | id in Within(groups, Targets(groups, seed, r), k) :: Rank(m, id) >= r
  {
    if k > 0 {
      PassesReach(groups, seed, r, k - 1);
      var m, targets := Passes(groups, seed, k - 1), Targets(groups, seed, r);
      hide Within, Supported, Below, Sweep, Derive;
      SweepRaises(groups, |groups|, m);
      BelowTwice(seed, m, Sweep(groups, |groups|, m));
      forall x | x in targets ensures Rank(m, x) >= r { RankBelow(seed, m, x); }
      forall id | id in Within(groups, targets, k) ensures Rank(Sweep(groups, |groups|, m), id) >= r {
        OneMorePass(groups, m, targets, k, r, id);
      }
    }
  }

  lemma BelowTwice(a: map<string, Derived>, b: map<string, Derived>, c: map<string, Derived>)
    requires Below(a, b) && Below(b, c)
    ensures Below(a, c)
  {
  }

  lemma RankBelow(a: map<string, Derived>, b: map<string, Derived>, x: string)
    requires Below(a, b)
    ensures Rank(a, x) <= Rank(b, x)
  {
  }

  /** A group with a member within reach of a target rises with the next pass. */
  lemma OneMorePass(groups: seq<Group>, m: map<string, Derived>, targets: set<string>, k: nat, r: nat, id: string)
    requires DistinctIds(groups) && Supported(groups, m) && k > 0 && id in Within(groups, targets, k)
    requires forall x | x in targets :: Rank(m, x) >= r
    requires forall x | x in Within(groups, targets, k - 1) :: Rank(m, x) >= r
    ensures Rank(Sweep(groups, |groups|, m), id) >= r
  {
    var g :| g in groups && g.id == id &&
              exists x | x in g.members :: x in targets || x in Within(groups, targets, k - 1);
    var x :| x in g.members && (x in targets || x in Within(groups, targets, k - 1));
    var i :| 0 <= i < |groups| && groups[i] == g;
    SweepRaises(groups, |groups|, m);
    DeriveIsHighest(m, g.members);
    hide Within, Supported, Sweep, Derive, Rank, RankOf, Below;
  }

  /** What a group shows always comes from a target it reaches, its latency included. */
  ghost predicate Sound(groups: seq<Group>, seed: map<string, Derived>, byID: map<string, Derived>) {
    && (forall x | x !in GroupIds(groups) :: (x in byID <==> x in seed) && (x in byID ==> byID[x] == seed[x]))
    && (forall id, r | id in GroupIds(groups) && 0 < r <= Rank(byID, id) ::
          id in Within(groups, Targets(groups, seed, r), |groups|))
    && (forall id | id in GroupIds(groups) && Rank(byID, id) == 2 :: FromTarget(groups, seed, id, byID[id]))
  }

  ghost predicate FromTarget(groups: seq<Group>, seed: map<string, Derived>, id: string, d: Derived) {
    exists t | t in Targets(groups, seed, 2) :: seed[t] == d && id in Within(groups, {t}, |groups|)
  }

  lemma MemberReaches(groups: seq<Group>, targets: set<string>, g: Group, x: string)
    requires g in groups && x in g.members && (x in targets || x in Within(groups, targets, |groups|))
    ensures g.id in Within(groups, targets, |groups|)
  {
    WithinStep(groups, targets, |groups|, g.id, x);
    WithinIsClosed(groups, targets, |groups| + 1);
  }

  lemma UpdateIsSound(groups: seq<Group>, seed: map<string, Derived>, byID: map<string, Derived>, g: Group)
    requires Sound(groups, seed, byID) && g in groups
    ensures Sound(groups, seed, byID[g.id := Derive(byID, g.members)])
  {
    hide Derive, Within;
    var d := Derive(byID, g.members);
    DeriveIsHighest(byID, g.members);
    assert g.id in GroupIds(groups);
    forall r | 0 < r <= RankOf(d)
      ensures g.id in Within(groups, Targets(groups, seed, r), |groups|)
    {
      var x :| x in g.members && Rank(byID, x) == RankOf(d);
      MemberReaches(groups, Targets(groups, seed, r), g, x);
    }
    if d.state == Alive {
      var x :| x in g.members && x in byID && byID[x] == d;
      if x in GroupIds(groups) {
        var t :| t in Targets(groups, seed, 2) && seed[t] == d && x in Within(groups, {t}, |groups|);
        MemberReaches(groups, {t}, g, x);
      } else {
        MemberReaches(groups, {x}, g, x);
        assert x in Targets(groups, seed, 2);
      }
      assert FromTarget(groups, seed, g.id, d);
    }
  }

  lemma {:induction false} SweepIsSound(groups: seq<Group>, seed: map<string, Derived>, byID: map<string, Derived>,
                                        n: nat)
    requires Sound(groups, seed, byID) && n <= |groups|
    ensures Sound(groups, seed, Sweep(groups, n, byID))
  {
    if n > 0 {
      SweepIsSound(groups, seed, byID, n - 1);
      UpdateIsSound(groups, seed, Sweep(groups, n - 1, byID), groups[n - 1]);
    }
  }

  lemma {:induction false} PassesAreSound(groups: seq<Group>, seed: map<string, Derived>, k: nat)
    requires IsSeed(groups, seed)
    ensures Sound(groups, seed, Passes(groups, seed, k))
  {
    if k > 0 {
      PassesAreSound(groups, seed, k - 1);
      SweepIsSound(groups, seed, Passes(groups, seed, k - 1), |groups|);
    }
  }

  /** The recorded state of x as a target, direct counting as alive. */
  ghost function TargetState(stats: map<string, Derived>, x: string): State {
    if x == DIRECT then Alive else if x in stats then stats[x].state else Unknown
  }

  ghost function TargetsIn(stats: map<string, Derived>, groups: seq<Group>, s: State): set<string> {
    set x | x in stats.Keys + {DIRECT} && x !in GroupIds(groups) && TargetState(stats, x) == s
  }

  lemma {:induction false} SeedIs(stats: map<string, Derived>, groups: seq<Group>, n: nat)
    requires n <= |groups|
    ensures var seed := Seed(stats, groups, n);
            forall x | x !in GroupIds(groups) ::
              (x in seed <==> x in stats || x == DIRECT) &&
              (x in seed ==> seed[x] == if x == DIRECT then Derived(Alive, 0) else stats[x])
  {
    if n > 0 {
      SeedIs(stats, groups, n - 1);
      assert groups[n - 1] in groups && groups[n - 1].id in GroupIds(groups);
    }
  }

  lemma RankIsReachability(groups: seq<Group>, seed: map<string, Derived>, g: Group, r: nat)
    requires DistinctIds(groups) && IsSeed(groups, seed) && g in groups && r > 0
    ensures Rank(Passes(groups, seed, |groups|), g.id) >= r <==> Reaches(groups, g.id, Targets(groups, seed, r))
  {
    PassesReach(groups, seed, r, |groups|);
    PassesAreSound(groups, seed, |groups|);
    ReachesIsWithin(groups, Targets(groups, seed, r), g.id);
    assert g.id in GroupIds(groups);
  }

  lemma SeedTargets(stats: map<string, Derived>, groups: seq<Group>)
    ensures var seed := Seed(stats, groups, |groups|);
            && Targets(groups, seed, 2) == TargetsIn(stats, groups, Alive)
            && Targets(groups, seed, 1) == TargetsIn(stats, groups, Alive) + TargetsIn(stats, groups, Down)
            && IsSeed(groups, seed)
  {
    SeedIs(stats, groups, |groups|);
    SeedHasGroups(stats, groups, |groups|);
  }

  /** t is an alive target the group reaches, and d is its health. */
  ghost predicate TakenFrom(stats: map<string, Derived>, groups: seq<Group>, id: string, d: Derived, t: string) {
    && t in TargetsIn(stats, groups, Alive) && Reaches(groups, id, {t})
    && d == if t == DIRECT then Derived(Alive, 0) else stats[t]
  }

  lemma LatencyIsATargets(stats: map<string, Derived>, groups: seq<Group>, g: Group) returns (t: string)
    requires DistinctIds(groups) && g in groups
    requires Rank(Passes(groups, Seed(stats, groups, |groups|), |groups|), g.id) == 2
    ensures TakenFrom(stats, groups, g.id, Passes(groups, Seed(stats, groups, |groups|), |groups|)[g.id], t)
  {
    hide Passes, Within;
    var seed := Seed(stats, groups, |groups|);
    var out := Passes(groups, seed, |groups|);
    SeedTargets(stats, groups);
    SeedIs(stats, groups, |groups|);
    PassesAreSound(groups, seed, |groups|);
    assert g.id in GroupIds(groups);
    assert FromTarget(groups, seed, g.id, out[g.id]);
    t :| t in Targets(groups, seed, 2) && seed[t] == out[g.id] && g.id in Within(groups, {t}, |groups|);
    ReachesIsWithin(groups, {t}, g.id);
  }

  /** For any membership graph, cycles included, in any listing order: a group is Alive exactly when an
      alive target (or direct) is reachable through members, otherwise Down exactly when a down one is, and
      otherwise Unknown. An alive group's latency is that of an alive target it reaches. */
  lemma GroupHealthIsReachability(stats: map<string, Derived>, groups: seq<Group>, g: Group)
    requires DistinctIds(groups) && g in groups
    ensures var out := Passes(groups, Seed(stats, groups, |groups|), |groups|);
            var alive, down := Reaches(groups, g.id, TargetsIn(stats, groups, Alive)),
                               Reaches(groups, g.id, TargetsIn(stats, groups, Down));
            && g.id in out
            && out[g.id].state == (if alive then Alive else if down then Down else Unknown)
            && (alive ==> exists t :: TakenFrom(stats, groups, g.id, out[g.id], t))
  {
    hide Passes, Seed, Reaches, Targets, TargetsIn;
    var seed := Seed(stats, groups, |groups|);
    SeedTargets(stats, groups);
    RankIsReachability(groups, seed, g, 1);
    RankIsReachability(groups, seed, g, 2);
    EitherTarget(groups, TargetsIn(stats, groups, Alive), TargetsIn(stats, groups, Down), g.id);
    PassesKeepKeys(groups, seed, |groups|);
    if Rank(Passes(groups, seed, |groups|), g.id) == 2 {
      var t := LatencyIsATargets(stats, groups, g);
    }
  }

  lemma {:induction false} PassesKeepKeys(groups: seq<Group>, seed: map<string, Derived>, k: nat)
    ensures forall x | x in seed :: x in Passes(groups, seed, k)
  {
    if k > 0 {
      PassesKeepKeys(groups, seed, k - 1);
      SweepKeepsKeys(groups, |groups|, Passes(groups, seed, k - 1));
    }
  }

  lemma EitherTarget(groups: seq<Group>, a: set<string>, b: set<string>, id: string)
    ensures Reaches(groups, id, a + b) <==> Reaches(groups, id, a) || Reaches(groups, id, b)
  {
    if p :| Leads(groups, p, a + b) && p[0] == id {
      assert Leads(groups, p, a) || Leads(groups, p, b);
    }
    if p :| Leads(groups, p, a) && p[0] == id {
      assert Leads(groups, p, a + b);
    }
    if p :| Leads(groups, p, b) && p[0] == id {
      assert Leads(groups, p, a + b);
    }
  }

  // ---- Whose latency ------------------------------------------------------------------------------

  predicate LiveMember(byID: map<string, Derived>, id: string) { id in byID && byID[id].state == Alive }

  /** What the group shows is its first live member's health as it is; with none it is down if a member is, else
      unknown, and without a latency. */
  ghost predicate ShowsFirstLive(byID: map<string, Derived>, members: seq<string>, d: Derived) {
    && (forall i | 0 <= i < |members| && LiveMember(byID, members[i]) &&
                   forall j | 0 <= j < i :: !LiveMember(byID, members[j]) :: d == byID[members[i]])
    && ((forall i | 0 <= i < |members| :: !LiveMember(byID, members[i])) ==>
          d == Derived(if exists x | x in members :: x in byID && byID[x].state == Down then Down else Unknown, 0))
  }

  lemma {:induction false} FirstAliveAt(byID: map<string, Derived>, members: seq<string>) returns (i: nat)
    ensures i <= |members| && (forall j | 0 <= j < i :: !LiveMember(byID, members[j]))
    ensures i < |members| ==> LiveMember(byID, members[i]) && FirstAlive(byID, members) == byID[members[i]]
    ensures i == |members| ==> FirstAlive(byID, members) == NOTHING_KNOWN
  {
    i := 0;
    if members != [] {
      var n := |members| - 1;
      i := FirstAliveAt(byID, members[..n]);
      if i == n && !LiveMember(byID, members[n]) { i := n + 1; }
    }
  }

  lemma {:induction false} AnyDownIs(byID: map<string, Derived>, members: seq<string>)
    ensures AnyDown(byID, members) <==> exists x | x in members :: x in byID && byID[x].state == Down
  {
    if members != [] {
      var init, last := members[..|members| - 1], members[|members| - 1];
      AnyDownIs(byID, init);
      assert forall x :: x in members <==> x in init || x == last by { assert members == init + [last]; }
    }
  }

  lemma DeriveShowsFirstLive(byID: map<string, Derived>, members: seq<string>)
    ensures ShowsFirstLive(byID, members, Derive(byID, members))
  {
    var i := FirstAliveAt(byID, members);
    AnyDownIs(byID, members);
    hide FirstAlive, AnyDown;
  }

  /** The groups can be numbered so that each one's number is above its member groups': none is in a cycle. */
  ghost predicate Numbered(groups: seq<Group>, num: string -> nat) {
    (forall g | g in groups :: num(g.id) < |groups|) &&
    forall g, h | g in groups && h in groups && h.id in g.members :: num(h.id) < num(g.id)
  }

  /** The groups numbered below k show what their members now have. */
  ghost predicate Settled(groups: seq<Group>, num: string -> nat, m: map<string, Derived>, k: nat, n: nat)
    requires n <= |groups|
  {
    forall i | 0 <= i < n && num(groups[i].id) < k ::
      groups[i].id in m && m[groups[i].id] == Derive(m, groups[i].members)
  }

  ghost predicate Same(a: map<string, Derived>, b: map<string, Derived>, x: string) {
    (x in a <==> x in b) && (x in a ==> a[x] == b[x])
  }

  lemma {:induction false} FirstAliveSame(a: map<string, Derived>, b: map<string, Derived>, members: seq<string>)
    requires forall x | x in members :: Same(a, b, x)
    ensures FirstAlive(a, members) == FirstAlive(b, members) && AnyDown(a, members) == AnyDown(b, members)
  {
    if members != [] {
      assert members[|members| - 1] in members;
      FirstAliveSame(a, b, members[..|members| - 1]);
    }
  }

  /** What a map has for anything but the groups numbered k and above. */
  ghost predicate SameBelow(groups: seq<Group>, num: string -> nat, a: map<string, Derived>, b: map<string, Derived>,
                            k: nat)
  {
    forall x | (forall g | g in groups && g.id == x :: num(x) < k) :: Same(a, b, x)
  }

  /** A pass changes nothing that is settled, and settles the groups numbered k. */
  lemma {:induction false} SweepSettles(groups: seq<Group>, num: string -> nat, byID: map<string, Derived>, k: nat,
                                        n: nat)
    requires DistinctIds(groups) && Numbered(groups, num) && n <= |groups|
    requires Settled(groups, num, byID, k, |groups|)
    ensures SameBelow(groups, num, byID, Sweep(groups, n, byID), k)
    ensures Settled(groups, num, Sweep(groups, n, byID), k + 1, n)
  {
    if n > 0 {
      SweepSettles(groups, num, byID, k, n - 1);
      hide Derive;
      UpdateSettles(groups, num, byID, Sweep(groups, n - 1, byID), k, n);
    }
  }

  lemma UpdateStaysSame(groups: seq<Group>, num: string -> nat, byID: map<string, Derived>, m: map<string, Derived>,
                        k: nat, n: nat, d: Derived)
    requires 0 < n <= |groups| && SameBelow(groups, num, byID, m, k)
    requires var id := groups[n - 1].id; num(id) < k ==> Same(byID, m[id := d], id)
    ensures SameBelow(groups, num, byID, m[groups[n - 1].id := d], k)
  {
    var id, g := groups[n - 1].id, groups[n - 1];
    var m' := m[id := d];
    assert g in groups;
    forall x | (forall h | h in groups && h.id == x :: num(x) < k) ensures Same(byID, m', x) {
      if x == id {
        assert num(id) < k;
      } else {
        assert Same(byID, m, x);
      }
    }
    assert SameBelow(groups, num, byID, m', k);
  }

  lemma UpdateSettles(groups: seq<Group>, num: string -> nat, byID: map<string, Derived>, m: map<string, Derived>,
                      k: nat, n: nat)
    requires DistinctIds(groups) && Numbered(groups, num) && 0 < n <= |groups|
    requires Settled(groups, num, byID, k, |groups|)
    requires SameBelow(groups, num, byID, m, k) && Settled(groups, num, m, k + 1, n - 1)
    ensures var g := groups[n - 1];
            var m' := m[g.id := Derive(m, g.members)];
            SameBelow(groups, num, byID, m', k) && Settled(groups, num, m', k + 1, n)
  {
    hide Derive, SameBelow;
    var g := groups[n - 1];
    var m' := m[g.id := Derive(m, g.members)];
    assert g in groups;
    if num(g.id) <= k { MembersBelow(groups, num, byID, m, g, k); }
    UpdateStaysSame(groups, num, byID, m, k, n, Derive(m, g.members));
    forall i | 0 <= i < n && num(groups[i].id) < k + 1
      ensures groups[i].id in m' && m'[groups[i].id] == Derive(m', groups[i].members)
    {
      assert groups[i] in groups;
      MembersBelow(groups, num, byID, m, groups[i], k);
      MembersBelow(groups, num, byID, m', groups[i], k);
    }
  }

  lemma MembersBelow(groups: seq<Group>, num: string -> nat, a: map<string, Derived>, b: map<string, Derived>, g: Group,
                     k: nat)
    requires Numbered(groups, num) && g in groups && num(g.id) <= k && SameBelow(groups, num, a, b, k)
    ensures Derive(a, g.members) == Derive(b, g.members)
  {
    forall x | x in g.members ensures Same(a, b, x) {
      assert forall h | h in groups && h.id == x :: num(x) < num(g.id);
    }
    FirstAliveSame(a, b, g.members);
  }

  lemma {:induction false} PassesSettle(groups: seq<Group>, num: string -> nat, seed: map<string, Derived>, k: nat)
    requires DistinctIds(groups) && Numbered(groups, num)
    ensures Settled(groups, num, Passes(groups, seed, k), k, |groups|)
  {
    if k > 0 {
      PassesSettle(groups, num, seed, k - 1);
      SweepSettles(groups, num, Passes(groups, seed, k - 1), k - 1, |groups|);
      hide Derive, Sweep;
    }
  }

  /** Without membership cycles the passes settle: every group shows the health of its first live member, with that
      member's latency. */
  lemma GroupShowsFirstLive(stats: map<string, Derived>, groups: seq<Group>, num: string -> nat, g: Group)
    requires DistinctIds(groups) && Numbered(groups, num) && g in groups
    ensures var out := Passes(groups, Seed(stats, groups, |groups|), |groups|);
            g.id in out && ShowsFirstLive(out, g.members, out[g.id])
  {
    hide Derive, ShowsFirstLive, Passes, Seed;
    var out := Passes(groups, Seed(stats, groups, |groups|), |groups|);
    PassesSettle(groups, num, Seed(stats, groups, |groups|), |groups|);
    var i :| 0 <= i < |groups| && groups[i] == g;
    DeriveShowsFirstLive(out, g.members);
  }
}
