/** A run of internal/failsafe/failsafe.go at its default durations in which a router reboots although no
    rollback was ever claimed: two probes outlive their windows, and the second is handed the ActRollback of
    the third window, whose closure its goroutine may not claim. */
module FailsafeLateProbes {
  import opened Failsafe
  import opened FailsafeRuns

  const DEFAULTS := Durations(45000, 300000, 180000)
  const GRACE := 20000
  const INTERVAL := 15000

  // ---- Times the timers allow ---------------------------------------------------------------------

  /** The clock as it was last read, and from when on each goroutine may read it: Grace after its window was
      armed, Interval after its last reading. */
  datatype Timers = Timers(last: int, due: map<nat, int>, epoch: nat, kept: bool)

  function Turn(c: Timers, t: Step): Timers {
    match t
    case DoArm(now, _, _) => Timers(now, c.due[c.epoch + 1 := now + GRACE], c.epoch + 1, c.kept && c.last <= now)
    case DoProbe(e, now) =>
      Timers(now, c.due[e := now + INTERVAL], c.epoch, c.kept && c.last <= now && e in c.due && c.due[e] <= now)
    case DoConfirm => c.(epoch := c.epoch + 1)
    case DoDisarm => c.(epoch := c.epoch + 1)
    case DoMarkRolledBack => c.(epoch := c.epoch + 1)
    case _ => c
  }

  function TimersAfter(run: seq<Step>): Timers {
    if run == [] then Timers(0, map[], 0, true) else Turn(TimersAfter(run[..|run| - 1]), run[|run| - 1])
  }

  /** The clock does not fall, and no goroutine reads it before its timers let it. */
  predicate InTime(run: seq<Step>) { TimersAfter(run).kept }

  // ---- Extending a run ----------------------------------------------------------------------------

  /** The run leads to s, with the timers at c. */
  predicate Leads(run: seq<Step>, s: System, c: Timers) {
    IsRun(DEFAULTS, run) && Result(DEFAULTS, run) == s && TimersAfter(run) == c
  }

  lemma Step1(run: seq<Step>, s: System, c: Timers, t: Step)
    requires Leads(run, s, c) && Enabled(s, t)
    ensures Leads(run + [t], After(s, DEFAULTS, t), Turn(c, t))
  {
    assert (run + [t])[..|run|] == run;
    hide Enabled, After, Turn;
  }

  function Ask(e: nat, now: int): seq<Step> { [DoLook(e), DoProbe(e, now)] }

  lemma Asked(run: seq<Step>, s: System, c: Timers, e: nat, now: int)
    requires Leads(run, s, c) && At(s, Run(e), Watching) && Live(s, e) && s.w.pending
    ensures Leads(run + Ask(e, now), s.(pcs := s.pcs[Run(e) := Probing(now)]), Turn(c, DoProbe(e, now)))
  {
    var u := After(s, DEFAULTS, DoLook(e));
    assert Turn(c, DoLook(e)) == c;
    assert u.pcs[Run(e) := Probing(now)] == s.pcs[Run(e) := Probing(now)];
    hide Leads;
    Step1(run, s, c, DoLook(e));
    Step1(run + [DoLook(e)], u, c, DoProbe(e, now));
    assert run + Ask(e, now) == run + [DoLook(e)] + [DoProbe(e, now)];
  }

  /** What a stage of the run fixes: the window, who is where, and that nothing has been claimed. */
  predicate Stage(s: System, w: Window, pcs: map<Actor, Pc>) {
    s.w == w && s.live && s.pcs == pcs && s.log == []
  }

  lemma Ticked(run: seq<Step>, s: System, c: Timers, e: nat, h: Health)
    requires Leads(run, s, c) && Run(e) in s.pcs && s.pcs[Run(e)].Probing? && s.live && s.log == []
    ensures var (w, a) := Tick(s.w, DEFAULTS, s.pcs[Run(e)].at, h);
            exists u | Leads(run + [DoTick(e, h)], u, c) ::
              Stage(u, w, if a == ActDone then s.pcs - {Run(e)}
                          else s.pcs[Run(e) := if a == ActNone then Watching
                                               else if a == ActRollback then GotRollback else GotReboot])
  {
    Step1(run, s, c, DoTick(e, h));
    hide Tick, Leads;
    assert Leads(run + [DoTick(e, h)], AfterTick(s, DEFAULTS, e, s.pcs[Run(e)].at, h), c);
  }

  // ---- The run ------------------------------------------------------------------------------------

  function First(): seq<Step> { [DoArm(1000, true, true)] + Ask(1, 21000) }

  function Second(): seq<Step> {
    [DoArm(26000, true, true)] + Ask(2, 46000) + [DoTick(2, Up)] + Ask(2, 61000) + [DoTick(2, Up)] + Ask(2, 76000)
  }

  const HANDED := [DoArm(77000, true, true), DoTick(1, Down), DoTick(2, Down), DoClaim(2)]

  /** The third goroutine's ticks, one each Interval from the end of its Grace on. */
  function Rounds(k: nat): seq<Step> {
    if k == 0 then [] else Rounds(k - 1) + Ask(3, 97000 + INTERVAL * (k - 1)) + [DoTick(3, Down)]
  }

  function Opening(): seq<Step> { First() + Second() + HANDED }

  function Overtaken(): seq<Step> { Opening() + Rounds(16) + [DoReboot(3)] }

  const W1 := Arm(Fresh, DEFAULTS, 1000, true, true)
  const W2 := Arm(W1, DEFAULTS, 26000, true, true)
  const W3 := Arm(W2.(lastAt := 61000), DEFAULTS, 77000, true, true)
  const BAD3 := W3.(phase := RolledBack, rolledBack := true, bad := true, badSince := 21000, lastAt := 76000)

  lemma FirstWindow() returns (s: System)
    ensures Leads(First(), s, Timers(21000, map[1 := 36000], 1, true)) && Stage(s, W1, map[Run(1) := Probing(21000)])
  {
    var a := DoArm(1000, true, true);
    var t0, c1 := Timers(0, map[], 0, true), Timers(1000, map[1 := 21000], 1, true);
    assert Leads([], Start, t0);
    Step1([], Start, t0, a);
    s := After(Start, DEFAULTS, a);
    assert [] + [a] == [a] && t0.due[1 := 21000] == c1.due && s.pcs == map[Run(1) := Watching];
    Asked([a], s, c1, 1, 21000);
    s := s.(pcs := s.pcs[Run(1) := Probing(21000)]);
    assert c1.due[1 := 36000] == map[1 := 36000];
  }

  lemma SecondArmed() returns (s: System)
    ensures Leads(First() + [DoArm(26000, true, true)], s, Timers(26000, map[1 := 36000, 2 := 46000], 2, true))
    ensures Stage(s, W2, map[Run(1) := Probing(21000), Run(2) := Watching])
  {
    var s1 := FirstWindow();
    var a, c := DoArm(26000, true, true), Timers(21000, map[1 := 36000], 1, true);
    hide Leads;
    Step1(First(), s1, c, a);
    s := After(s1, DEFAULTS, a);
  }

  /** One healthy tick of the second window. */
  lemma Healthy(run: seq<Step>, s: System, c: Timers, w: Window, now: int) returns (u: System)
    requires Leads(run, s, c) && Stage(s, w, map[Run(1) := Probing(21000), Run(2) := Watching])
    requires w == W2.(lastAt := w.lastAt) && now < W2.deadline
    ensures Leads(run + Ask(2, now) + [DoTick(2, Up)], u, Turn(c, DoProbe(2, now)))
    ensures Stage(u, W2.(lastAt := now), map[Run(1) := Probing(21000), Run(2) := Watching])
  {
    var pcs := map[Run(1) := Probing(21000), Run(2) := Watching];
    Asked(run, s, c, 2, now);
    var v := s.(pcs := s.pcs[Run(2) := Probing(now)]);
    Ticked(run + Ask(2, now), v, Turn(c, DoProbe(2, now)), 2, Up);
    assert Tick(w, DEFAULTS, now, Up) == (W2.(lastAt := now), ActNone);
    assert v.pcs[Run(2) := Watching] == pcs;
    u :| Leads(run + Ask(2, now) + [DoTick(2, Up)], u, Turn(c, DoProbe(2, now))) && Stage(u, W2.(lastAt := now), pcs);
  }

  lemma HealthyOnce() returns (s: System)
    ensures Leads(First() + [DoArm(26000, true, true)] + Ask(2, 46000) + [DoTick(2, Up)], s,
                  Timers(46000, map[1 := 36000, 2 := 61000], 2, true))
    ensures Stage(s, W2.(lastAt := 46000), map[Run(1) := Probing(21000), Run(2) := Watching])
  {
    var s0 := SecondArmed();
    hide Leads, First, Ask;
    var c := Timers(26000, map[1 := 36000, 2 := 46000], 2, true);
    s := Healthy(First() + [DoArm(26000, true, true)], s0, c, W2, 46000);
    assert Turn(c, DoProbe(2, 46000)).due == map[1 := 36000, 2 := 61000];
  }

  lemma SecondWindow() returns (s: System)
    ensures Leads(First() + Second(), s, Timers(76000, map[1 := 36000, 2 := 91000], 2, true))
    ensures Stage(s, W2.(lastAt := 61000), map[Run(1) := Probing(21000), Run(2) := Probing(76000)])
  {
    var run1 := First() + [DoArm(26000, true, true)] + Ask(2, 46000) + [DoTick(2, Up)];
    var c1 := Timers(46000, map[1 := 36000, 2 := 61000], 2, true);
    var c2 := Timers(61000, map[1 := 36000, 2 := 76000], 2, true);
    var s1 := HealthyOnce();
    SecondInParts();
    hide Leads, First, Second, Ask;
    var s2 := Healthy(run1, s1, c1, W2.(lastAt := 46000), 61000);
    assert Turn(c1, DoProbe(2, 61000)).due == c2.due;
    Asked(run1 + Ask(2, 61000) + [DoTick(2, Up)], s2, c2, 2, 76000);
    assert Turn(c2, DoProbe(2, 76000)).due == map[1 := 36000, 2 := 91000];
    s := s2.(pcs := s2.pcs[Run(2) := Probing(76000)]);
  }

  lemma SecondInParts()
    ensures First() + [DoArm(26000, true, true)] + Ask(2, 46000) + [DoTick(2, Up)] + Ask(2, 61000) + [DoTick(2, Up)] +
            Ask(2, 76000) == First() + Second()
  {
    hide First, Ask;
  }

  lemma ThirdArmed() returns (s: System)
    ensures Leads(First() + Second() + HANDED[..1], s, Timers(77000, map[1 := 36000, 2 := 91000, 3 := 97000], 3, true))
    ensures Stage(s, W3, map[Run(1) := Probing(21000), Run(2) := Probing(76000), Run(3) := Watching])
  {
    var s2 := SecondWindow();
    hide Leads, First, Second;
    Step1(First() + Second(), s2, Timers(76000, map[1 := 36000, 2 := 91000], 2, true), HANDED[0]);
    s := After(s2, DEFAULTS, HANDED[0]);
    assert HANDED[..1] == [HANDED[0]];
  }

  lemma FirstProbeReturns() returns (s: System)
    ensures Leads(First() + Second() + HANDED[..2], s, Timers(77000, map[1 := 36000, 2 := 91000, 3 := 97000], 3, true))
    ensures Stage(s, W3.(phase := Degraded, bad := true, badSince := 21000, lastAt := 21000),
                  map[Run(1) := Watching, Run(2) := Probing(76000), Run(3) := Watching])
  {
    var c := Timers(77000, map[1 := 36000, 2 := 91000, 3 := 97000], 3, true);
    hide First, Second;
    var s3 := ThirdArmed();
    var run := First() + Second() + HANDED[..1];
    var w := W3.(phase := Degraded, bad := true, badSince := 21000, lastAt := 21000);
    Ticked(run, s3, c, 1, Down);
    assert Tick(W3, DEFAULTS, 21000, Down) == (w, ActNone);
    assert run + [DoTick(1, Down)] == First() + Second() + HANDED[..2];
    assert s3.pcs[Run(1) := Watching] == map[Run(1) := Watching, Run(2) := Probing(76000), Run(3) := Watching];
    s :| Leads(First() + Second() + HANDED[..2], s, c) && Stage(s, w, s3.pcs[Run(1) := Watching]);
  }

  lemma SecondProbeReturns() returns (s: System)
    ensures Leads(First() + Second() + HANDED[..3], s, Timers(77000, map[1 := 36000, 2 := 91000, 3 := 97000], 3, true))
    ensures Stage(s, BAD3, map[Run(1) := Watching, Run(2) := GotRollback, Run(3) := Watching])
  {
    var c := Timers(77000, map[1 := 36000, 2 := 91000, 3 := 97000], 3, true);
    hide First, Second;
    var s3 := FirstProbeReturns();
    var run := First() + Second() + HANDED[..2];
    Ticked(run, s3, c, 2, Down);
    assert Tick(s3.w, DEFAULTS, 76000, Down) == (BAD3, ActRollback);
    assert run + [DoTick(2, Down)] == First() + Second() + HANDED[..3];
    assert s3.pcs[Run(2) := GotRollback] == map[Run(1) := Watching, Run(2) := GotRollback, Run(3) := Watching];
    s :| Leads(First() + Second() + HANDED[..3], s, c) && Stage(s, BAD3, s3.pcs[Run(2) := GotRollback]);
  }

  lemma ClaimIsRefused() returns (s: System)
    ensures Leads(Opening(), s, Timers(77000, map[1 := 36000, 2 := 91000, 3 := 97000], 3, true))
    ensures Stage(s, BAD3.(lastAt := s.w.lastAt), IDLE)
  {
    hide First, Second;
    var s3 := SecondProbeReturns();
    var run := First() + Second() + HANDED[..3];
    hide Leads;
    Step1(run, s3, Timers(77000, map[1 := 36000, 2 := 91000, 3 := 97000], 3, true), DoClaim(2));
    s := After(s3, DEFAULTS, DoClaim(2));
    assert run + [DoClaim(2)] == Opening();
  }

  const IDLE: map<Actor, Pc> := map[Run(1) := Watching, Run(2) := Watching, Run(3) := Watching]

  /** After k rounds nothing has changed but the time of the last tick. */
  lemma {:induction false} RoundsPass(k: nat) returns (s: System, c: Timers)
    requires k <= 15
    ensures Leads(Opening() + Rounds(k), s, c) && Stage(s, BAD3.(lastAt := s.w.lastAt), IDLE)
    ensures Waits(c, 97000 + INTERVAL * k)
  {
    hide Opening, Ask, Rounds, Leads, Stage, Waits, Turn;
    if k == 0 {
      s := ClaimIsRefused();
      c := Timers(77000, map[1 := 36000, 2 := 91000, 3 := 97000], 3, true);
      NoRounds();
    } else {
      var s0, c0 := RoundsPass(k - 1);
      var run, now := Opening() + Rounds(k - 1), 97000 + INTERVAL * (k - 1);
      s := DownTick(run, s0, c0, now);
      c := Turn(c0, DoProbe(3, now));
      RoundMore(k, now);
      NextWait(c0, now);
    }
  }

  /** The third goroutine reads the clock at `due` or later, and so far all timers were kept. */
  predicate Waits(c: Timers, due: int) { c.kept && c.last <= due && 3 in c.due && c.due[3] == due }

  lemma NextWait(c: Timers, now: int)
    requires Waits(c, now)
    ensures Waits(Turn(c, DoProbe(3, now)), now + INTERVAL)
  {
  }

  lemma RoundMore(k: nat, now: int)
    requires k > 0 && now == 97000 + INTERVAL * (k - 1)
    ensures Opening() + Rounds(k - 1) + Ask(3, now) + [DoTick(3, Down)] == Opening() + Rounds(k)
  {
    hide Opening, Ask;
    assert Rounds(k) == Rounds(k - 1) + Ask(3, now) + [DoTick(3, Down)];
    hide Rounds;
  }

  lemma NoRounds()
    ensures Opening() + Rounds(0) == Opening()
    ensures Waits(Timers(77000, map[1 := 36000, 2 := 91000, 3 := 97000], 3, true), 97000)
  {
    hide Opening;
  }

  lemma DownTick(run: seq<Step>, s: System, c: Timers, now: int) returns (u: System)
    requires Leads(run, s, c) && Stage(s, BAD3.(lastAt := s.w.lastAt), IDLE) && now - 21000 < 300000
    ensures Leads(run + Ask(3, now) + [DoTick(3, Down)], u, Turn(c, DoProbe(3, now)))
    ensures Stage(u, BAD3.(lastAt := u.w.lastAt), IDLE)
  {
    Asked(run, s, c, 3, now);
    var v := s.(pcs := s.pcs[Run(3) := Probing(now)]);
    Ticked(run + Ask(3, now), v, Turn(c, DoProbe(3, now)), 3, Down);
    assert Tick(s.w, DEFAULTS, now, Down) == (BAD3.(lastAt := now), ActNone);
    assert v.pcs[Run(3) := Watching] == IDLE;
    u :| Leads(run + Ask(3, now) + [DoTick(3, Down)], u, Turn(c, DoProbe(3, now))) &&
         Stage(u, BAD3.(lastAt := now), IDLE);
  }

  lemma LastTick(run: seq<Step>, s: System, c: Timers, now: int) returns (u: System)
    requires Leads(run, s, c) && Stage(s, BAD3.(lastAt := s.w.lastAt), IDLE) && now - 21000 >= 300000
    ensures Leads(run + Ask(3, now) + [DoTick(3, Down)], u, Turn(c, DoProbe(3, now)))
    ensures Stage(u, BAD3.(lastAt := now, pending := false, phase := Reboot), IDLE[Run(3) := GotReboot])
  {
    Asked(run, s, c, 3, now);
    var v := s.(pcs := s.pcs[Run(3) := Probing(now)]);
    var w := BAD3.(lastAt := now, pending := false, phase := Reboot);
    Ticked(run + Ask(3, now), v, Turn(c, DoProbe(3, now)), 3, Down);
    assert Tick(s.w, DEFAULTS, now, Down) == (w, ActReboot);
    assert v.pcs[Run(3) := GotReboot] == IDLE[Run(3) := GotReboot];
    u :| Leads(run + Ask(3, now) + [DoTick(3, Down)], u, Turn(c, DoProbe(3, now))) &&
         Stage(u, w, IDLE[Run(3) := GotReboot]);
  }

  /** Every goroutine waits out its Grace and ticks each Interval, the first probe takes at least 56 seconds and
      the one of the second window a second and more; the third window then reboots, with a closure to run
      and none ever claimed. */
  lemma RebootWithoutRollback()
    ensures IsRun(DEFAULTS, Overtaken()) && InTime(Overtaken())
    ensures Result(DEFAULTS, Overtaken()).log == [Rebooted(3)] && Result(DEFAULTS, Overtaken()).w.hasRollback
  {
    hide Opening, Ask, Rounds;
    var s, c := RoundsPass(15);
    var run, now := Opening() + Rounds(15), 97000 + INTERVAL * 15;
    var u := LastTick(run, s, c, now);
    var last := run + Ask(3, now) + [DoTick(3, Down)];
    var d := Turn(c, DoProbe(3, now));
    assert Turn(d, DoReboot(3)) == d && d.kept;
    Step1(last, u, d, DoReboot(3));
    assert After(u, DEFAULTS, DoReboot(3)).log == [] + [Rebooted(3)];
    hide After;
    RoundMore(16, now);
    assert last + [DoReboot(3)] == Overtaken();
  }
}
