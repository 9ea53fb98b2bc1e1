/** The managed-group control loop of internal/failover: which member a group should use (controller.go),
    which members are hidden from that choice (damper.go, outlier.go, filteredHealth) and when a switch is
    committed (runner.go). Times are unix milliseconds. */
module Failover {
  import opened Wrappers
  import opened Damping

  datatype MemberHealth = MemberHealth(id: string, alive: bool, latency: int)

  datatype Policy = Latency | Fallback | Selector

  datatype Config = Config(toleranceMs: int, minDwellMS: int, failbackHoldMS: int) {
    function Tolerance(): int { if toleranceMs > 0 then toleranceMs else 50 }
    function MinDwell(): int { if minDwellMS > 0 then minDwellMS else 10000 }
    function FailbackHold(): int { if failbackHoldMS > 0 then failbackHoldMS else 30000 }
  }

  // ---- controller.go ------------------------------------------------------------------------------

  datatype DecideInput = DecideInput(policy: Policy, members: seq<MemberHealth>, current: string,
                                     lastSwitch: int, now: int, cfg: Config, currentRawAlive: Option<bool>)

  function Find(ms: seq<MemberHealth>, id: string): Option<MemberHealth> {
    if ms == [] then None
    else if ms[0].id == id then Some(ms[0])
    else Find(ms[1..], id)
  }

  predicate MemberAlive(ms: seq<MemberHealth>, id: string) {
    Find(ms, id).Some? && Find(ms, id).value.alive
  }

  function FirstAlive(ms: seq<MemberHealth>): Option<string> {
    if ms == [] then None else if ms[0].alive then Some(ms[0].id) else FirstAlive(ms[1..])
  }

  function Fastest(ms: seq<MemberHealth>): (r: Option<MemberHealth>)
    ensures r.Some? ==> r.value in ms && r.value.alive && forall m | m in ms && m.alive :: r.value.latency <= m.latency
    ensures r.None? ==> forall m | m in ms :: !m.alive
  {
    if ms == [] then None
    else
      var before, last := Fastest(ms[..|ms| - 1]), ms[|ms| - 1];
      assert forall m | m in ms :: m in ms[..|ms| - 1] || m == last;
      if last.alive && (before.None? || last.latency < before.value.latency) then Some(last) else before
  }

  /** Member i is alive, slower than no live member, and faster than every live one in front of it. */
  ghost predicate FirstFastest(ms: seq<MemberHealth>, i: int) {
    0 <= i < |ms| && ms[i].alive &&
    (forall j | 0 <= j < |ms| && ms[j].alive :: ms[i].latency <= ms[j].latency) &&
    (forall j | 0 <= j < i && ms[j].alive :: ms[i].latency < ms[j].latency)
  }

  lemma {:induction false} FastestIsFirst(ms: seq<MemberHealth>) returns (i: nat)
    requires Fastest(ms).Some?
    ensures FirstFastest(ms, i) && ms[i] == Fastest(ms).value
  {
    var init, last := ms[..|ms| - 1], ms[|ms| - 1];
    if Fastest(ms) == Fastest(init) && Fastest(init).Some? {
      i := FastestIsFirst(init);
    } else {
      i := |ms| - 1;
      assert forall j | 0 <= j < i :: ms[j] == init[j] && init[j] in init;
    }
  }

  /** lowestLatencyAlive: of equals the first. */
  method LowestLatencyAlive(ms: seq<MemberHealth>) returns (best: string, bestLat: int, found: bool)
    ensures found == Fastest(ms).Some?
    ensures found ==> best == Fastest(ms).value.id && bestLat == Fastest(ms).value.latency
    ensures found <==> exists m | m in ms :: m.alive
    ensures found ==> exists i :: FirstFastest(ms, i) && ms[i].id == best && ms[i].latency == bestLat
  {
    best, bestLat, found := "", 0, false;
    for i := 0 to |ms|
      invariant found == Fastest(ms[..i]).Some?
      invariant found ==> best == Fastest(ms[..i]).value.id && bestLat == Fastest(ms[..i]).value.latency
    {
      assert ms[..i + 1][..i] == ms[..i];
      if !ms[i].alive {
        continue;
      }
      if !found || ms[i].latency < bestLat {
        best, bestLat, found := ms[i].id, ms[i].latency, true;
      }
    }
    assert ms[..|ms|] == ms;
    if found { ghost var k := FastestIsFirst(ms); }
  }

  /** The member the policy wants, min-dwell aside; the empty string for none. */
  function Ideal(in_: DecideInput): string {
    var curAlive := MemberAlive(in_.members, in_.current);
    match in_.policy
    case Fallback =>
      var m := FirstAlive(in_.members);
      if m.None? then "" else m.value
    case Selector =>
      if in_.current != "" && curAlive then in_.current
      else
        var m := FirstAlive(in_.members);
        if m.None? then in_.current else m.value
    case Latency =>
      var best := Fastest(in_.members);
      if best.None? then in_.current
      else if in_.current == "" || !curAlive then best.value.id
      else if Find(in_.members, in_.current).value.latency - best.value.latency > in_.cfg.Tolerance() then best.value.id
      else in_.current
  }

  predicate DecideEmergency(in_: DecideInput) {
    in_.current == "" ||
    !(if in_.currentRawAlive.Some? then in_.currentRawAlive.value else MemberAlive(in_.members, in_.current))
  }

  /** The member to route through, and whether that is a change that may commit now. */
  function Decide(in_: DecideInput): (string, bool) {
    var want := Ideal(in_);
    if want == "" || want == in_.current then (in_.current, false)
    else if !DecideEmergency(in_) && in_.lastSwitch > 0 && in_.now - in_.lastSwitch < in_.cfg.MinDwell() then
      (in_.current, false)
    else (want, true)
  }

  lemma {:induction false} FirstAliveIsAlive(ms: seq<MemberHealth>)
    ensures FirstAlive(ms).Some? ==> exists m :: m in ms && m.alive && m.id == FirstAlive(ms).value
    ensures FirstAlive(ms).None? ==> forall m | m in ms :: !m.alive
  {
    if ms != [] {
      FirstAliveIsAlive(ms[1..]);
      assert forall m | m in ms :: m == ms[0] || m in ms[1..];
    }
  }

  /** A change is always to a member that is alive among those it was shown, and off a live member it waits
      for min-dwell. */
  lemma DecideTargetsAlive(in_: DecideInput)
    requires Decide(in_).1
    ensures exists m :: m in in_.members && m.alive && m.id == Decide(in_).0
    ensures !DecideEmergency(in_) && in_.lastSwitch > 0 ==> in_.now - in_.lastSwitch >= in_.cfg.MinDwell()
  {
    FirstAliveIsAlive(in_.members);
    if in_.policy == Latency {
      var m := Fastest(in_.members).value;
      assert m in in_.members;
    }
  }

  // ---- What Decide answers ------------------------------------------------------------------------

  /** Member i is the first one alive. */
  ghost predicate FirstLive(ms: seq<MemberHealth>, i: int) {
    0 <= i < |ms| && ms[i].alive && forall j | 0 <= j < i :: !ms[j].alive
  }

  /** Member i is the first of that name. */
  ghost predicate FirstNamed(ms: seq<MemberHealth>, id: string, i: int) {
    0 <= i < |ms| && ms[i].id == id && forall j | 0 <= j < i :: ms[j].id != id
  }

  ghost predicate Live(ms: seq<MemberHealth>, id: string) { exists i :: FirstNamed(ms, id, i) && ms[i].alive }

  /** The member each policy is for: the first live one (fallback); the operator's pick while it lives, else the
      first live one (selector); the first of the fastest, unless the current one lives and is no slower than that
      by more than the tolerance (latency). With none alive a selector and a latency group stay. */
  ghost predicate IsFor(in_: DecideInput, want: string) {
    var ms, cur := in_.members, in_.current;
    match in_.policy
    case Fallback =>
      if exists i :: FirstLive(ms, i) then exists i :: FirstLive(ms, i) && want == ms[i].id else want == ""
    case Selector =>
      if (cur != "" && Live(ms, cur)) || !exists i :: FirstLive(ms, i) then want == cur
      else exists i :: FirstLive(ms, i) && want == ms[i].id
    case Latency =>
      if !exists i :: FirstLive(ms, i) then want == cur
      else exists b :: FirstFastest(ms, b) &&
             want == if cur != "" && Live(ms, cur) && WithinTolerance(in_, b) then cur else ms[b].id
  }

  /** The current member is slower than member b by the tolerance (50 ms unless set) at most. */
  ghost predicate WithinTolerance(in_: DecideInput, b: int)
    requires 0 <= b < |in_.members|
  {
    exists c :: FirstNamed(in_.members, in_.current, c) &&
                in_.members[c].latency - in_.members[b].latency <=
                if in_.cfg.toleranceMs > 0 then in_.cfg.toleranceMs else 50
  }

  lemma {:induction false} FindIsFirst(ms: seq<MemberHealth>, id: string)
    ensures Find(ms, id).None? <==> forall m | m in ms :: m.id != id
    ensures Find(ms, id).Some? ==> exists i :: FirstNamed(ms, id, i) && ms[i] == Find(ms, id).value
  {
    if ms != [] && ms[0].id != id {
      FindIsFirst(ms[1..], id);
      if Find(ms[1..], id).Some? {
        var i :| FirstNamed(ms[1..], id, i) && ms[1..][i] == Find(ms[1..], id).value;
        assert FirstNamed(ms, id, i + 1) by {
          assert forall j | 0 < j < i + 1 :: ms[j] == ms[1..][j - 1];
        }
      }
      assert forall m | m in ms :: m == ms[0] || m in ms[1..];
    } else if ms != [] {
      assert FirstNamed(ms, id, 0);
    }
  }

  lemma LiveIsAlive(ms: seq<MemberHealth>, id: string)
    ensures MemberAlive(ms, id) <==> Live(ms, id)
  {
    FindIsFirst(ms, id);
    if i :| FirstNamed(ms, id, i) && ms[i].alive { assert ms[i] in ms; }
  }

  lemma {:induction false} FirstAliveIsFirst(ms: seq<MemberHealth>)
    ensures FirstAlive(ms).None? <==> !exists i :: FirstLive(ms, i)
    ensures FirstAlive(ms).Some? ==> exists i :: FirstLive(ms, i) && ms[i].id == FirstAlive(ms).value
  {
    if ms != [] && !ms[0].alive {
      FirstAliveIsFirst(ms[1..]);
      if FirstAlive(ms).Some? {
        var i :| FirstLive(ms[1..], i) && ms[1..][i].id == FirstAlive(ms).value;
        assert FirstLive(ms, i + 1) by {
          assert forall j | 0 < j < i + 1 :: ms[j] == ms[1..][j - 1];
        }
      } else {
        FirstAliveIsAlive(ms);
      }
    } else if ms != [] {
      assert FirstLive(ms, 0);
    }
  }

  lemma FastestLives(ms: seq<MemberHealth>)
    ensures Fastest(ms).Some? <==> exists i :: FirstLive(ms, i)
  {
    FirstAliveIsFirst(ms);
    FirstAliveIsAlive(ms);
  }

  lemma IdealIsFor(in_: DecideInput)
    ensures IsFor(in_, Ideal(in_))
  {
    var ms, cur := in_.members, in_.current;
    LiveIsAlive(ms, cur);
    FirstAliveIsFirst(ms);
    FastestLives(ms);
    if in_.policy == Latency && Fastest(ms).Some? {
      LatencyIsFor(in_);
    }
    hide MemberAlive, Fastest, FirstAlive, FirstLive, Live;
  }

  lemma LatencyIsFor(in_: DecideInput)
    requires in_.policy == Latency && Fastest(in_.members).Some?
    ensures IsFor(in_, Ideal(in_))
  {
    var ms, cur := in_.members, in_.current;
    LiveIsAlive(ms, cur);
    FastestLives(ms);
    FindIsFirst(ms, cur);
    var b := FastestIsFirst(ms);
    if MemberAlive(ms, cur) {
      var c :| FirstNamed(ms, cur, c) && ms[c] == Find(ms, cur).value;
      SlowerBy(in_, b, c);
    }
    hide FirstFastest, FirstLive, FirstNamed, Live, Find, Fastest, WithinTolerance;
  }

  lemma SlowerBy(in_: DecideInput, b: int, c: int)
    requires 0 <= b < |in_.members| && FirstNamed(in_.members, in_.current, c)
    ensures WithinTolerance(in_, b) <==>
            in_.members[c].latency - in_.members[b].latency <= in_.cfg.Tolerance()
  {
  }

  /** Only one member is what the policy is for. */
  lemma IsForOne(in_: DecideInput, a: string, b: string)
    requires IsFor(in_, a) && IsFor(in_, b)
    ensures a == b
  {
  }

  /** Decide moves to the member the policy is for, whenever that is another one: at once off no member or one not
      alive, and off a live one exactly when min-dwell (10 s unless set) has passed since the last switch. */
  lemma DecideIs(in_: DecideInput, want: string)
    requires IsFor(in_, want)
    ensures var alive := if in_.currentRawAlive.Some? then in_.currentRawAlive.value
                         else Live(in_.members, in_.current);
            var dwell := if in_.cfg.minDwellMS > 0 then in_.cfg.minDwellMS else 10000;
            var moves := want != "" && want != in_.current &&
                         (in_.current == "" || !alive || in_.lastSwitch <= 0 || in_.now - in_.lastSwitch >= dwell);
            Decide(in_) == (if moves then want else in_.current, moves)
  {
    IdealIsFor(in_);
    IsForOne(in_, want, Ideal(in_));
    LiveIsAlive(in_.members, in_.current);
    hide IsFor, Ideal, Live;
  }

  // ---- outlier.go ---------------------------------------------------------------------------------

  datatype OutlierConfig = OutlierConfig(consecutiveFailures: int, baseEjection: int, maxEjection: int)

  datatype OutlierState = OutlierState(consecFails: int, ejections: int, ejectedUntil: int)

  const NEVER_FAILED := OutlierState(0, 0, 0)

  function Recorded(cfg: OutlierConfig, s: OutlierState, success: bool, now: int): OutlierState {
    if success then s.(consecFails := 0)
    else if s.consecFails + 1 >= cfg.consecutiveFailures && now >= s.ejectedUntil then
      var window := cfg.baseEjection * (s.ejections + 1);
      OutlierState(0, s.ejections + 1, now + if window > cfg.maxEjection then cfg.maxEjection else window)
    else s.(consecFails := s.consecFails + 1)
  }

  predicate EjectedAt(state: map<string, OutlierState>, member: string, now: int) {
    member in state && now < state[member].ejectedUntil
  }

  class OutlierDetector {
    const cfg: OutlierConfig
    var state: map<string, OutlierState>

    constructor (cfg: OutlierConfig)
      ensures this.cfg == cfg && state == map[]
    {
      this.cfg := cfg;
      state := map[];
    }

    method Record(member: string, success: bool, now: int)
      modifies this
      ensures var was := if member in old(state) then old(state)[member] else NEVER_FAILED;
              state == old(state)[member := Recorded(cfg, was, success, now)]
    {
      var s := if member in state then state[member] else NEVER_FAILED;
      if success {
        state := state[member := OutlierState(0, s.ejections, s.ejectedUntil)];
        return;
      }
      var fails := s.consecFails + 1;
      if fails >= cfg.consecutiveFailures && now >= s.ejectedUntil {
        var ejections := s.ejections + 1;
        var window := cfg.baseEjection * ejections;
        if window > cfg.maxEjection {
          window := cfg.maxEjection;
        }
        state := state[member := OutlierState(0, ejections, now + window)];
      } else {
        state := state[member := OutlierState(fails, s.ejections, s.ejectedUntil)];
      }
    }

    method Ejected(member: string, now: int) returns (yes: bool)
      ensures yes == EjectedAt(state, member, now)
    {
      yes := member in state && now < state[member].ejectedUntil;
    }
  }

  // ---- Ejections over a run of reports ------------------------------------------------------------

  datatype Report = Report(success: bool, at: int)

  /** One ejection: when it began and ends, and how many failures in a row had been reported. */
  datatype Ejection = Ejection(from: int, until: int, failures: nat)

  function Reported(cfg: OutlierConfig, rs: seq<Report>): OutlierState {
    if rs == [] then NEVER_FAILED
    else Recorded(cfg, Reported(cfg, rs[..|rs| - 1]), rs[|rs| - 1].success, rs[|rs| - 1].at)
  }

  function FailuresInARow(rs: seq<Report>): nat {
    if rs == [] || rs[|rs| - 1].success then 0 else FailuresInARow(rs[..|rs| - 1]) + 1
  }

  /** The ejections that began in a run, read off the moments the count goes up. */
  function Ejections(cfg: OutlierConfig, rs: seq<Report>): seq<Ejection> {
    if rs == [] then []
    else
      var init, last := rs[..|rs| - 1], rs[|rs| - 1];
      var s := Reported(cfg, rs);
      if s.ejections == Reported(cfg, init).ejections then Ejections(cfg, init)
      else Ejections(cfg, init) + [Ejection(last.at, s.ejectedUntil, FailuresInARow(rs))]
  }

  function WindowOf(cfg: OutlierConfig, n: nat): int {
    if cfg.baseEjection * n > cfg.maxEjection then cfg.maxEjection else cfg.baseEjection * n
  }

  /** Each ejection follows enough failures in a row, lasts base times its number up to the cap, and begins only
      when the one before is over; the member is ejected exactly until the last of them ends. */
  lemma {:induction false} EjectionsGrow(cfg: OutlierConfig, rs: seq<Report>)
    ensures var es, s := Ejections(cfg, rs), Reported(cfg, rs);
            && s.ejections == |es| && s.consecFails <= FailuresInARow(rs)
            && s.ejectedUntil == (if es == [] then 0 else es[|es| - 1].until)
            && (forall i | 0 <= i < |es| ::
                  es[i].failures >= cfg.consecutiveFailures && es[i].until == es[i].from + WindowOf(cfg, i + 1))
            && (forall i | 0 <= i < |es| - 1 :: es[i].until <= es[i + 1].from)
  {
    if rs != [] { EjectionsGrow(cfg, rs[..|rs| - 1]); }
  }

  lemma WindowsGrow(cfg: OutlierConfig, m: nat, n: nat)
    requires m <= n && cfg.baseEjection >= 0
    ensures WindowOf(cfg, m) <= WindowOf(cfg, n) <= cfg.maxEjection
  {
    assert cfg.baseEjection * m <= cfg.baseEjection * n by {
      assert cfg.baseEjection * n == cfg.baseEjection * m + cfg.baseEjection * (n - m);
    }
  }

  /** The failures reported since the last success or the last ejection. */
  function FailuresSince(cfg: OutlierConfig, rs: seq<Report>): nat {
    if rs == [] then 0
    else
      var init := rs[..|rs| - 1];
      if rs[|rs| - 1].success || |Ejections(cfg, rs)| > |Ejections(cfg, init)| then 0 else FailuresSince(cfg, init) + 1
  }

  lemma {:induction false} FailuresAreCounted(cfg: OutlierConfig, rs: seq<Report>)
    ensures Reported(cfg, rs).consecFails == FailuresSince(cfg, rs)
  {
    if rs != [] {
      FailuresAreCounted(cfg, rs[..|rs| - 1]);
      EjectionsGrow(cfg, rs[..|rs| - 1]);
      EjectionsGrow(cfg, rs);
    }
  }

  /** A report begins an ejection exactly when it is a failure, enough of them have come since the last success or
      ejection, and the last ejection is over; the new one's length is its number times the base, up to the cap. */
  lemma EjectsWhenDue(cfg: OutlierConfig, rs: seq<Report>, r: Report)
    ensures var es := Ejections(cfg, rs);
            var window := cfg.baseEjection * (|es| + 1);
            Ejections(cfg, rs + [r]) ==
            if !r.success && FailuresSince(cfg, rs) + 1 >= cfg.consecutiveFailures &&
               r.at >= (if es == [] then 0 else es[|es| - 1].until)
            then es + [Ejection(r.at, r.at + if window > cfg.maxEjection then cfg.maxEjection else window,
                                FailuresInARow(rs) + 1)]
            else es
  {
    NextReport(cfg, rs, r);
    FailuresAreCounted(cfg, rs);
    EjectionsGrow(cfg, rs);
    hide FailuresSince, Ejections, FailuresInARow, Reported;
  }

  lemma NextReport(cfg: OutlierConfig, rs: seq<Report>, r: Report)
    ensures var es, s := Ejections(cfg, rs), Recorded(cfg, Reported(cfg, rs), r.success, r.at);
            Ejections(cfg, rs + [r]) ==
            if s.ejections == Reported(cfg, rs).ejections then es
            else es + [Ejection(r.at, s.ejectedUntil, if r.success then 0 else FailuresInARow(rs) + 1)]
  {
    var next := rs + [r];
    assert next[..|next| - 1] == rs && next[|next| - 1] == r;
    ReportedNext(cfg, next);
    hide Recorded, Reported, FailuresInARow;
  }

  lemma ReportedNext(cfg: OutlierConfig, rs: seq<Report>)
    requires rs != []
    ensures var init, last := rs[..|rs| - 1], rs[|rs| - 1];
            && Reported(cfg, rs) == Recorded(cfg, Reported(cfg, init), last.success, last.at)
            && FailuresInARow(rs) == if last.success then 0 else FailuresInARow(init) + 1
  {
    hide Recorded;
  }

  // ---- filteredHealth -----------------------------------------------------------------------------

  /** What filteredHealth keeps from tick to tick, and the members already recorded in this one. */
  datatype Detectors = Detectors(damp: map<string, DampState>, lastAlive: map<string, bool>,
                                 outl: map<string, OutlierState>, recorded: set<string>)

  datatype Tuning = Tuning(damp: DampConfig, outl: OutlierConfig)

  function Dampened(t: Tuning, d: Detectors, mh: MemberHealth, now: int): map<string, DampState> {
    if mh.id in d.lastAlive && d.lastAlive[mh.id] && !mh.alive
    then d.damp[mh.id := Flapped(t.damp, if mh.id in d.damp then d.damp[mh.id] else UNSEEN, now)]
    else d.damp
  }

  function ObserveOne(t: Tuning, d: Detectors, mh: MemberHealth, failing: Option<set<string>>, now: int): Detectors {
    var due := failing.Some? && mh.id !in d.recorded;
    Detectors(
      Dampened(t, d, mh, now),
      d.lastAlive[mh.id := mh.alive],
      if due then d.outl[mh.id := Recorded(t.outl, if mh.id in d.outl then d.outl[mh.id] else NEVER_FAILED,
                                           mh.id !in failing.value, now)]
      else d.outl,
      if due then d.recorded + {mh.id} else d.recorded)
  }

  function Observe(t: Tuning, d: Detectors, health: seq<MemberHealth>, failing: Option<set<string>>,
                   now: int): Detectors {
    if health == [] then d
    else ObserveOne(t, Observe(t, d, health[..|health| - 1], failing, now), health[|health| - 1], failing, now)
  }

  function AskDamper(t: Tuning, damp: map<string, DampState>, id: string, now: int): map<string, DampState> {
    if id in damp then damp[id := Queried(t.damp, damp[id], now)] else damp
  }

  predicate IsSuppressed(damp: map<string, DampState>, id: string) {
    id in damp && damp[id].suppressed
  }

  /** An alive member is asked about, and hidden when suppressed or ejected. */
  function HideOne(t: Tuning, outl: map<string, OutlierState>, damp: map<string, DampState>, m: MemberHealth,
                   failing: bool, now: int) : (map<string, DampState>, MemberHealth) {
    if !m.alive then (damp, m)
    else
      var asked := AskDamper(t, damp, m.id, now);
      (asked, m.(alive := !(IsSuppressed(asked, m.id) || (failing && EjectedAt(outl, m.id, now)))))
  }

  function Hide(t: Tuning, d: Detectors, health: seq<MemberHealth>, failing: bool, now: int)
    : (r: (map<string, DampState>, seq<MemberHealth>))
    ensures |r.1| == |health|
    ensures forall i | 0 <= i < |health| ::
              r.1[i].id == health[i].id && r.1[i].latency == health[i].latency && (r.1[i].alive ==> health[i].alive)
  {
    if health == [] then (d.damp, [])
    else
      var (damp, out) := Hide(t, d, health[..|health| - 1], failing, now);
      var (asked, m) := HideOne(t, d.outl, damp, health[|health| - 1], failing, now);
      (asked, out + [m])
  }

  predicate AnyAlive(ms: seq<MemberHealth>) {
    exists m :: m in ms && m.alive
  }

  function Filtered(t: Tuning, d: Detectors, health: seq<MemberHealth>, failing: Option<set<string>>, now: int)
    : (Detectors, seq<MemberHealth>)
  {
    var seen := Observe(t, d, health, failing, now);
    var (damp, out) := Hide(t, seen, health, failing.Some?, now);
    (seen.(damp := damp), if AnyAlive(health) && !AnyAlive(out) then health else out)
  }

  /** Filtering only ever hides members, and never the last one alive. */
  lemma FilterKeepsOneAlive(t: Tuning, d: Detectors, health: seq<MemberHealth>, failing: Option<set<string>>, now: int)
    ensures var out := Filtered(t, d, health, failing, now).1;
            && (AnyAlive(out) <==> AnyAlive(health))
            && (forall m | m in out && m.alive :: m in health)
  {
    var seen := Observe(t, d, health, failing, now);
    var out := Hide(t, seen, health, failing.Some?, now).1;
    forall m | m in out && m.alive
      ensures m in health
    {
      var i :| 0 <= i < |out| && out[i] == m;
      assert health[i] == m;
    }
  }

  ghost predicate DistinctMembers(health: seq<MemberHealth>) {
    forall i, j | 0 <= i < j < |health| :: health[i].id != health[j].id
  }

  /** Whether the damper, asked now, suppresses the member, or a wired detector has it ejected. */
  predicate Excluded(t: Tuning, d: Detectors, id: string, wired: bool, now: int) {
    (id in d.damp && Queried(t.damp, d.damp[id], now).suppressed) ||
    (wired && id in d.outl && now < d.outl[id].ejectedUntil)
  }

  lemma {:induction false} HidesExcluded(t: Tuning, d: Detectors, health: seq<MemberHealth>, wired: bool, now: int,
                                         id: string)
    requires DistinctMembers(health)
    ensures var (damp, out) := Hide(t, d, health, wired, now);
            && (forall i | 0 <= i < |health| ::
                  out[i].alive <==> health[i].alive && !Excluded(t, d, health[i].id, wired, now))
            && ((forall i | 0 <= i < |health| :: health[i].id != id) ==>
                  (id in damp <==> id in d.damp) && (id in damp ==> damp[id] == d.damp[id]))
  {
    if health != [] {
      var init, last := health[..|health| - 1], health[|health| - 1];
      assert forall i | 0 <= i < |init| :: init[i] == health[i];
      HidesExcluded(t, d, init, wired, now, id);
      HidesExcluded(t, d, init, wired, now, last.id);
      hide Queried;
    }
  }

  /** After this tick's outcomes are recorded, a member keeps its health unless it is excluded, and then reads as
      dead; but when that would leave none of the live members, all keep it. */
  lemma FilterHidesExcluded(t: Tuning, d: Detectors, health: seq<MemberHealth>, failing: Option<set<string>>, now: int)
    requires DistinctMembers(health)
    ensures var (out, seen) := (Filtered(t, d, health, failing, now).1, Observe(t, d, health, failing, now));
            var leaves := exists i :: 0 <= i < |health| && health[i].alive &&
                                      !Excluded(t, seen, health[i].id, failing.Some?, now);
            && |out| == |health|
            && forall i | 0 <= i < |health| ::
                 out[i] == if leaves && Excluded(t, seen, health[i].id, failing.Some?, now)
                           then MemberHealth(health[i].id, false, health[i].latency) else health[i]
  {
    var seen := Observe(t, d, health, failing, now);
    HidesExcluded(t, seen, health, failing.Some?, now, "");
    var out := Hide(t, seen, health, failing.Some?, now).1;
    SomeAlive(health);
    SomeAlive(out);
    hide Observe, Hide, Excluded, AnyAlive;
  }

  lemma SomeAlive(ms: seq<MemberHealth>)
    ensures AnyAlive(ms) <==> exists i :: 0 <= i < |ms| && ms[i].alive
  {
    if i :| 0 <= i < |ms| && ms[i].alive { assert ms[i] in ms; }
  }

  // ---- Tick ---------------------------------------------------------------------------------------

  datatype PendingSwitch = PendingSwitch(to: string, since: int)

  datatype Outcome = Unchanged | Holding | SelectFailed | Committed

  /** One managed group as a tick meets it: what is selected now, its raw health, and whether the selector
      would take the switch. */
  datatype GroupInput = GroupInput(id: string, policy: Policy, cfg: Config, current: string,
                                   health: seq<MemberHealth>, selectOk: bool)

  /** What a tick did with one group. */
  datatype Visit = Visit(g: GroupInput, now: int, wanted: string, changed: bool, emergency: bool, outcome: Outcome)

  datatype Control = Control(lastSwitch: map<string, int>, pending: map<string, PendingSwitch>)

  predicate CurrentDeadOrEmpty(current: string, health: seq<MemberHealth>) {
    current == "" || Find(health, current).None? || !Find(health, current).value.alive
  }

  predicate RawCurrentAlive(d: Detectors, g: GroupInput, wired: bool, now: int) {
    !(CurrentDeadOrEmpty(g.current, g.health) || (g.current != "" && wired && EjectedAt(d.outl, g.current, now)))
  }

  function InputOf(c: Control, g: GroupInput, members: seq<MemberHealth>, now: int, rawAlive: bool): DecideInput {
    DecideInput(g.policy, members, g.current, if g.id in c.lastSwitch then c.lastSwitch[g.id] else 0, now, g.cfg,
                Some(rawAlive))
  }

  /** The hold, the switch and their records, for a verdict about one group. */
  function Settle(c: Control, g: GroupInput, now: int, wanted: string, changed: bool,
                  emergency: bool): (Control, Outcome) {
    if !changed then (c.(pending := c.pending - {g.id}), Unchanged)
    else if !emergency && (g.id !in c.pending || c.pending[g.id].to != wanted) then
      (c.(pending := c.pending[g.id := PendingSwitch(wanted, now)]), Holding)
    else if !emergency && now - c.pending[g.id].since < g.cfg.FailbackHold() then (c, Holding)
    else if !g.selectOk then (c, SelectFailed)
    else (Control(c.lastSwitch[g.id := now], c.pending - {g.id}), Committed)
  }

  function VisitGroup(t: Tuning, c: Control, d: Detectors, g: GroupInput, wired: bool,
                      failing: Option<set<string>>, now: int)
    : (Control, Detectors, Visit)
  {
    var rawAlive := RawCurrentAlive(d, g, wired, now);
    var (seen, members) := Filtered(t, d, g.health, failing, now);
    var (wanted, changed) := Decide(InputOf(c, g, members, now, rawAlive));
    var (next, outcome) := Settle(c, g, now, wanted, changed, !rawAlive);
    (next, seen, Visit(g, now, wanted, changed, !rawAlive, outcome))
  }

  function Tick(t: Tuning, c: Control, d: Detectors, groups: seq<GroupInput>, wired: bool,
                failing: Option<set<string>>, now: int)
    : (Control, Detectors, seq<Visit>)
  {
    if groups == [] then (c, d.(recorded := {}), [])
    else
      var (c1, d1, visits) := Tick(t, c, d, groups[..|groups| - 1], wired, failing, now);
      var (c2, d2, v) := VisitGroup(t, c1, d1, groups[|groups| - 1], wired, failing, now);
      (c2, d2, visits + [v])
  }

  /** What one group's visit says, from its raw health: an emergency is a group without a selection, or with one that
      is gone, dead or ejected; and the verdict is Decide's over the filtered members. */
  lemma VisitIs(t: Tuning, c: Control, d: Detectors, g: GroupInput, wired: bool, failing: Option<set<string>>, now: int)
    ensures var v := VisitGroup(t, c, d, g, wired, failing, now).2;
            var members := Filtered(t, d, g.health, failing, now).1;
            && v.g == g && v.now == now
            && (v.emergency <==> g.current == "" || !Live(g.health, g.current) ||
                                 (wired && g.current in d.outl && now < d.outl[g.current].ejectedUntil))
            && (v.wanted, v.changed) ==
               Decide(DecideInput(g.policy, members, g.current,
                                  if g.id in c.lastSwitch then c.lastSwitch[g.id] else 0, now, g.cfg,
                                  Some(!v.emergency)))
  {
    LiveIsAlive(g.health, g.current);
    hide Filtered, Decide, Live;
  }

  /** Decide, which paces by min-dwell, and the loop, which holds and cuts, never disagree on what an
      emergency is. */
  lemma VerdictsAgree(c: Control, d: Detectors, g: GroupInput, members: seq<MemberHealth>, wired: bool, now: int)
    ensures DecideEmergency(InputOf(c, g, members, now, RawCurrentAlive(d, g, wired, now))) <==>
            !RawCurrentAlive(d, g, wired, now)
  {
  }

  class Runner {
    const t: Tuning
    const damper: Damper
    const outlier: OutlierDetector
    var lastSwitch: map<string, int>
    var pending: map<string, PendingSwitch>
    var lastAlive: map<string, bool>

    constructor (t: Tuning)
      ensures this.t == t && Valid() && fresh(damper) && fresh(outlier)
      ensures Switches() == Control(map[], map[]) && Seen({}) == Detectors(map[], map[], map[], {})
    {
      this.t := t;
      damper := new Damper(t.damp);
      outlier := new OutlierDetector(t.outl);
      lastSwitch, pending, lastAlive := map[], map[], map[];
    }

    ghost predicate Valid() {
      damper.cfg == t.damp && outlier.cfg == t.outl
    }

    function Switches(): Control
      reads this
    {
      Control(lastSwitch, pending)
    }

    function Seen(recorded: set<string>): Detectors
      reads this, damper, outlier
    {
      Detectors(damper.state, lastAlive, outlier.state, recorded)
    }

    /** filteredHealth's first loop: this tick's flaps and real-traffic outcomes, the latter once a member. */
    method ObserveHealth(health: seq<MemberHealth>, failing: Option<set<string>>, now: int, recorded: set<string>)
      returns (rec: set<string>)
      requires Valid()
      modifies `lastAlive, damper, outlier
      ensures Seen(rec) == Observe(t, old(Seen(recorded)), health, failing, now)
    {
      rec := recorded;
      for i := 0 to |health|
        invariant Seen(rec) == Observe(t, old(Seen(recorded)), health[..i], failing, now)
      {
        assert health[..i + 1][..i] == health[..i];
        var mh := health[i];
        if mh.id in lastAlive && lastAlive[mh.id] && !mh.alive {
          damper.Penalize(mh.id, now);
        }
        lastAlive := lastAlive[mh.id := mh.alive];
        if failing.Some? && mh.id !in rec {
          outlier.Record(mh.id, mh.id !in failing.value, now);
          rec := rec + {mh.id};
        }
      }
      assert health[..|health|] == health;
    }

    method HideMember(m: MemberHealth, failing: bool, now: int) returns (out: MemberHealth)
      requires Valid()
      modifies damper
      ensures (damper.state, out) == HideOne(t, outlier.state, old(damper.state), m, failing, now)
    {
      out := m;
      if m.alive {
        var bad := damper.Suppressed(m.id, now);
        if !bad && failing {
          bad := outlier.Ejected(m.id, now);
        }
        if bad {
          out := m.(alive := false);
        }
      }
    }

    method HideHealth(health: seq<MemberHealth>, failing: bool, now: int, ghost recorded: set<string>)
      returns (out: seq<MemberHealth>)
      requires Valid()
      modifies damper
      ensures (damper.state, out) == Hide(t, old(Seen(recorded)), health, failing, now)
    {
      out := [];
      for i := 0 to |health|
        invariant (damper.state, out) == Hide(t, old(Seen(recorded)), health[..i], failing, now)
      {
        assert health[..i + 1][..i] == health[..i];
        var m := HideMember(health[i], failing, now);
        out := out + [m];
      }
      assert health[..|health|] == health;
    }

    method CountAlive(ms: seq<MemberHealth>) returns (n: nat)
      ensures n > 0 <==> AnyAlive(ms)
    {
      n := 0;
      for i := 0 to |ms|
        invariant n > 0 <==> AnyAlive(ms[..i])
      {
        AppendAlive(ms[..i], ms[i]);
        assert ms[..i + 1] == ms[..i] + [ms[i]];
        if ms[i].alive {
          n := n + 1;
        }
      }
      assert ms[..|ms|] == ms;
    }

    method FilteredHealth(health: seq<MemberHealth>, failing: Option<set<string>>, now: int, recorded: set<string>)
      returns (out: seq<MemberHealth>, rec: set<string>)
      requires Valid()
      modifies `lastAlive, damper, outlier
      ensures (Seen(rec), out) == Filtered(t, old(Seen(recorded)), health, failing, now)
    {
      rec := ObserveHealth(health, failing, now, recorded);
      out := HideHealth(health, failing.Some?, now, rec);
      var aliveBefore := CountAlive(health);
      var aliveAfter := CountAlive(out);
      if aliveBefore > 0 && aliveAfter == 0 {
        out := health;
      }
    }

    method VisitOne(g: GroupInput, wired: bool, failing: Option<set<string>>, now: int, recorded: set<string>)
      returns (v: Visit, rec: set<string>)
      requires Valid()
      modifies this, damper, outlier
      ensures (Switches(), Seen(rec), v) == VisitGroup(t, old(Switches()), old(Seen(recorded)), g, wired, failing, now)
    {
      var ejected := outlier.Ejected(g.current, now);
      var rawCurrentAlive := !(CurrentDeadOrEmpty(g.current, g.health) || (g.current != "" && wired && ejected));
      var members;
      members, rec := FilteredHealth(g.health, failing, now, recorded);
      var (desired, changed) := Decide(InputOf(Switches(), g, members, now, rawCurrentAlive));
      var outcome := Commit(g, now, desired, changed, !rawCurrentAlive);
      v := Visit(g, now, desired, changed, !rawCurrentAlive, outcome);
    }

    method Commit(g: GroupInput, now: int, desired: string, changed: bool, emergency: bool) returns (outcome: Outcome)
      modifies `lastSwitch, `pending
      ensures (Switches(), outcome) == Settle(old(Switches()), g, now, desired, changed, emergency)
    {
      if !changed {
        pending := pending - {g.id};
        return Unchanged;
      }
      if !emergency {
        if g.id !in pending || pending[g.id].to != desired {
          pending := pending[g.id := PendingSwitch(desired, now)];
          return Holding;
        }
        if now - pending[g.id].since < g.cfg.FailbackHold() {
          return Holding;
        }
      }
      if !g.selectOk {
        return SelectFailed;
      }
      lastSwitch := lastSwitch[g.id := now];
      pending := pending - {g.id};
      return Committed;
    }

    /** Tick. */
    method RunTick(groups: seq<GroupInput>, wired: bool, failing: Option<set<string>>, now: int)
      returns (visits: seq<Visit>)
      requires Valid()
      modifies this, damper, outlier
      ensures exists rec :: (Switches(), Seen(rec), visits) ==
                            Tick(t, old(Switches()), old(Seen({})), groups, wired, failing, now)
    {
      visits := [];
      var rec: set<string> := {};
      for i := 0 to |groups|
        invariant (Switches(), Seen(rec), visits) ==
                  Tick(t, old(Switches()), old(Seen({})), groups[..i], wired, failing, now)
      {
        assert groups[..i + 1][..i] == groups[..i];
        var v;
        v, rec := VisitOne(groups[i], wired, failing, now, rec);
        visits := visits + [v];
      }
      assert groups[..|groups|] == groups;
    }
  }

  lemma AppendAlive(ms: seq<MemberHealth>, m: MemberHealth)
    ensures AnyAlive(ms + [m]) <==> AnyAlive(ms) || m.alive
  {
  }
}
