/** Every interleaving of the fail-safe Manager's critical sections: the run goroutine of each window, any
    number of manual rollbacks, and Apply, Keep, Disarm and MarkRolledBack. A goroutine looks at its context,
    then at pending, reads the clock and probes before it ticks, and tickHealth does not look at the epoch, so
    a superseded one may still tick. A rollback closure runs between two critical sections, with the mutex
    dropped, so any other step may come in between. */
module FailsafeRuns {
  import opened Failsafe

  /** Who may be running a rollback closure: the goroutine armed with an epoch, or one manual call. */
  datatype Actor = Run(epoch: nat) | Call(id: nat)

  datatype Pc =
    | Watching                           // run: in its grace time, or between ticks
    | Looking                            // run: its context was live, pending is read next
    | Probing(at: int)                   // run: pending was set, the clock read, the probe is out
    | GotRollback                        // run: tickHealth said ActRollback
    | GotReboot                          // run: tickHealth said ActReboot
    | Calling(window: nat)               // the closure claimed for this window is running
    | Returned(window: nat, o: Outcome)  // it returned; the section that records it has not run yet
    | Failing(window: nat)               // manual: the second section saw an error, the mark is due

  datatype Event =
    | Claimed(epoch: nat, auto: bool)    // the right to run the closure was taken
    | RecordedDone(epoch: nat)
    | RecordedFailed(epoch: nat)
    | Rebooted(epoch: nat)

  datatype Observation = Observation(at: int, h: Health)

  /** The Manager, whether the current window's context is live, who is where, and two records the program
      does not keep: the events of the whole run, and the ticks of the current window with the actions they
      returned and to which goroutine. */
  datatype System = System(w: Window, live: bool, pcs: map<Actor, Pc>, log: seq<Event>,
                           ticks: seq<Observation>, acts: seq<Action>, takers: seq<nat>)

  datatype Step =
    | DoArm(now: int, hasRollback: bool, canReboot: bool)
    | DoLook(run: nat)
    | DoProbe(run: nat, now: int)
    | DoQuit(run: nat)
    | DoTick(run: nat, h: Health)
    | DoClaim(run: nat)
    | DoReboot(run: nat)
    | DoReturn(who: Actor, o: Outcome)
    | DoMark(run: nat)
    | DoBegin(id: nat, only: bool, window: nat)
    | DoEnd(id: nat)
    | DoMarkFailed(id: nat)
    | DoConfirm
    | DoDisarm
    | DoMarkRolledBack

  const Start := System(Fresh, false, map[], [], [], [], [])

  predicate At(s: System, a: Actor, pc: Pc) {
    a in s.pcs && s.pcs[a] == pc
  }

  /** The context of goroutine e: cancelled by whatever closes or replaces its window, a tick excepted. */
  predicate Live(s: System, e: nat) { e == s.w.epoch && s.live }

  predicate Enabled(s: System, t: Step) {
    match t
    case DoLook(e) => At(s, Run(e), Watching) && Live(s, e)
    case DoProbe(e, _) => At(s, Run(e), Looking) && s.w.pending
    case DoQuit(e) => (At(s, Run(e), Watching) && !Live(s, e)) || (At(s, Run(e), Looking) && !s.w.pending)
    case DoTick(e, _) => Run(e) in s.pcs && s.pcs[Run(e)].Probing?
    case DoClaim(e) => At(s, Run(e), GotRollback)
    case DoReboot(e) => At(s, Run(e), GotReboot)
    case DoReturn(a, _) => a in s.pcs && s.pcs[a].Calling?
    case DoMark(e) => Run(e) in s.pcs && s.pcs[Run(e)].Returned?
    case DoBegin(id, _, _) => Call(id) !in s.pcs
    case DoEnd(id) => Call(id) in s.pcs && s.pcs[Call(id)].Returned?
    case DoMarkFailed(id) => Call(id) in s.pcs && s.pcs[Call(id)].Failing?
    case _ => true
  }

  function Move(s: System, a: Actor, pc: Pc): System {
    s.(pcs := s.pcs[a := pc])
  }

  function Leave(s: System, a: Actor): System {
    s.(pcs := s.pcs - {a})
  }

  function Record(s: System, w: Window, e: Event): System {
    s.(w := w, log := s.log + [e])
  }

  /** Only the ticks and the epoch's own steps touch what the escalation is measured by. */
  predicate SameClock(s: System, t: System) {
    t.ticks == s.ticks && t.w.bad == s.w.bad && t.w.badSince == s.w.badSince && t.w.lastAt == s.w.lastAt
  }

  function Observe(s: System, d: Durations, run: nat, now: int, h: Health): System {
    var (w, a) := Tick(s.w, d, now, h);
    if s.w.pending
    then System(w, s.live, s.pcs, s.log, s.ticks + [Observation(now, h)], s.acts + [a], s.takers + [run])
    else s
  }

  function AfterTick(s: System, d: Durations, run: nat, now: int, h: Health): (t: System)
    ensures SameClaims(s.w, t.w) && SameClock(Observe(s, d, run, now, h), t)
  {
    var u := Observe(s, d, run, now, h);
    match Tick(s.w, d, now, h).1
    case ActNone => Move(u, Run(run), Watching)
    case ActRollback => Move(u, Run(run), GotRollback)
    case ActReboot => Move(u, Run(run), GotReboot)
    case ActDone => Leave(u, Run(run))
  }

  /** A nil closure is never claimed by run; the window's own goroutine holds what Arm was given. */
  function AfterClaim(s: System, run: nat): (t: System)
    ensures t.w.epoch == s.w.epoch && SameClock(s, t)
  {
    var (w, claimed) := Claim(s.w, run);
    if s.w.hasRollback && claimed then Move(Record(s, w, Claimed(run, true)), Run(run), Calling(run))
    else Move(s, Run(run), Watching)
  }

  function AfterReboot(s: System, run: nat): (t: System)
    ensures t.w.epoch == s.w.epoch && SameClock(s, t)
  {
    var u := if s.w.epoch == run && s.w.canReboot then Record(s, s.w, Rebooted(run)) else s;
    Leave(u, Run(run))
  }

  function MarkedWindow(w: Window, run: nat, o: Outcome): (v: Window)
    ensures SameMeasure(w, v) && v.dispatched == w.dispatched && v.hasRollback == w.hasRollback
  {
    if o == Succeeded then MarkDone(w, run) else MarkFailed(w, run)
  }

  function MarkRecord(run: nat, o: Outcome): Event {
    if o == Succeeded then RecordedDone(run) else RecordedFailed(run)
  }

  function Marked(s: System, run: nat, o: Outcome): (t: System)
    ensures t.w.epoch == s.w.epoch && SameClock(s, t)
  {
    var w := MarkedWindow(s.w, run, o);
    if s.w.epoch != run then s.(w := w) else Record(s, w, MarkRecord(run, o))
  }

  function AfterMark(s: System, run: nat, o: Outcome): (t: System)
    ensures t.w.epoch == s.w.epoch && SameClock(s, t)
  {
    Move(Marked(s, run, o), Run(run), Watching)
  }

  /** With no closure to run (nil) the call goes straight to its second critical section. */
  function AfterBegin(s: System, id: nat, only: bool, window: nat): (t: System)
    ensures t.w.epoch == s.w.epoch && SameClock(s, t)
  {
    var (w, b) := RollbackBegin(s.w, only, window);
    assert SameMeasure(s.w, w);
    var u := s.(w := w, live := s.live && b != BeginFinalized);
    match b
    case BeginRun(e) =>
      if w.hasRollback then Claiming(u, id, e) else Move(u, Call(id), Returned(e, Succeeded))
    case _ => u
  }

  function Claiming(s: System, id: nat, e: nat): System {
    Move(s.(log := s.log + [Claimed(e, false)]), Call(id), Calling(e))
  }

  function AfterEnd(s: System, id: nat, window: nat, o: Outcome): (t: System)
    ensures t.w.epoch == s.w.epoch && SameClock(s, t)
  {
    var (w, e) := RollbackEnd(s.w, window, o);
    match e
    case EndNothing => Leave(s, Call(id))
    case EndMarkFailed => Move(s, Call(id), Failing(window))
    case EndRolledBack => Leave(Record(s, w, RecordedDone(window)).(live := false), Call(id))
  }

  function AfterMarkFailed(s: System, id: nat, window: nat): (t: System)
    ensures t.w.epoch == s.w.epoch && SameClock(s, t)
  {
    var w := MarkFailed(s.w, window);
    var u := if s.w.epoch != window then s.(w := w) else Record(s, w, RecordedFailed(window));
    Leave(u, Call(id))
  }

  function After(s: System, d: Durations, t: Step): System
    requires Enabled(s, t)
  {
    match t
    case DoArm(now, rb, rs) =>
      var w := Arm(s.w, d, now, rb, rs);
      System(w, true, s.pcs[Run(w.epoch) := Watching], s.log, [], [], [])
    case DoLook(e) => Move(s, Run(e), Looking)
    case DoProbe(e, now) => Move(s, Run(e), Probing(now))
    case DoQuit(e) => Leave(s, Run(e))
    case DoTick(e, h) => AfterTick(s, d, e, s.pcs[Run(e)].at, h)
    case DoClaim(e) => AfterClaim(s, e)
    case DoReboot(e) => AfterReboot(s, e)
    case DoReturn(a, o) => Move(s, a, Returned(s.pcs[a].window, o))
    case DoMark(e) => AfterMark(s, e, s.pcs[Run(e)].o)
    case DoBegin(id, only, e) => AfterBegin(s, id, only, e)
    case DoEnd(id) => AfterEnd(s, id, s.pcs[Call(id)].window, s.pcs[Call(id)].o)
    case DoMarkFailed(id) => AfterMarkFailed(s, id, s.pcs[Call(id)].window)
    case DoConfirm => s.(w := Confirm(s.w), live := false)
    case DoDisarm => s.(w := Disarm(s.w), live := false)
    case DoMarkRolledBack =>
      var w := MarkRolledBack(s.w);
      if w == s.w then s else s.(w := w, live := false)
  }

  predicate IsRun(d: Durations, run: seq<Step>)
    decreases |run|, 0
  {
    run == [] ||
    (IsRun(d, run[..|run| - 1]) && Enabled(Result(d, run[..|run| - 1]), run[|run| - 1]))
  }

  function Result(d: Durations, run: seq<Step>): System
    requires IsRun(d, run)
    decreases |run|, 1
  {
    if run == [] then Start
    else After(Result(d, run[..|run| - 1]), d, run[|run| - 1])
  }

  // ---- What is to be proved of every reachable state -------------------------------------------

  /** A claimed closure that has not been recorded yet. */
  predicate Holding(pc: Pc) {
    pc.Calling? || pc.Returned? || pc.Failing?
  }

  ghost predicate OneClosurePerWindow(s: System) {
    forall a, b | a in s.pcs && b in s.pcs && a != b && Holding(s.pcs[a]) && Holding(s.pcs[b]) ::
      s.pcs[a].window != s.pcs[b].window
  }

  ghost predicate FailedBetween(log: seq<Event>, i: int, j: int) {
    exists k :: 0 <= i < k < j <= |log| && log[k] == RecordedFailed(log[i].epoch)
  }

  /** Two closures run for one window: the second is manual, and a failure was recorded in between. */
  ghost predicate RetriesFollowFailure(log: seq<Event>) {
    forall i, j | 0 <= i < j < |log| && log[i].Claimed? && log[j].Claimed? && log[i].epoch == log[j].epoch ::
      !log[j].auto && FailedBetween(log, i, j)
  }

  ghost predicate NeverAfterSuccess(log: seq<Event>) {
    forall i, j | 0 <= i < j < |log| && log[i].RecordedDone? && log[j].Claimed? :: log[i].epoch != log[j].epoch
  }

  /** Rollback at most once in a window, a reboot or the end of the watch only as the last action, and
      a reboot only after the rollback. */
  ghost predicate Escalation(acts: seq<Action>) {
    && (forall i, j | 0 <= i < j < |acts| :: acts[i] == ActRollback ==> acts[j] != ActRollback)
    && (forall i | 0 <= i < |acts| - 1 :: acts[i] != ActReboot && acts[i] != ActDone)
    && (ActReboot in acts ==> ActRollback in acts)
  }

  // ---- The invariant ----------------------------------------------------------------------------

  ghost predicate PcsInv(s: System) {
    forall a | a in s.pcs ::
      && (Holding(s.pcs[a]) ==> s.pcs[a].window <= s.w.epoch)
      && (Holding(s.pcs[a]) && s.pcs[a].window == s.w.epoch ==>
            s.w.dispatched && !s.w.rollbackDone && !s.w.rollbackFailed)
      && (a.Run? ==> a.epoch <= s.w.epoch && (Holding(s.pcs[a]) ==> s.pcs[a].window == a.epoch))
  }

  /** While the goroutine of the current window lives, an undispatched window has no recorded outcome,
      and what it was told to do comes from this window's ticks. */
  ghost predicate OwnRunInv(s: System) {
    Run(s.w.epoch) in s.pcs ==>
      && (!s.w.dispatched ==> !s.w.rollbackDone && !s.w.rollbackFailed)
      && (s.pcs[Run(s.w.epoch)] == GotRollback ==> ActRollback in s.acts)
      && (s.pcs[Run(s.w.epoch)] == GotReboot ==> ActReboot in s.acts)
  }

  ghost predicate LogInv(s: System) {
    forall i | 0 <= i < |s.log| ::
      && s.log[i].epoch <= s.w.epoch
      && (s.log[i].epoch == s.w.epoch ==>
            && (s.log[i].Claimed? ==> s.w.dispatched)
            && (s.log[i].Claimed? && s.w.rollbackFailed ==> FailedBetween(s.log, i, |s.log|))
            && (s.log[i].RecordedDone? ==> s.w.dispatched && s.w.rollbackDone && !s.w.rollbackFailed))
  }

  ghost predicate ActsInv(s: System) {
    && Escalation(s.acts)
    && (s.w.pending ==> ActReboot !in s.acts && ActDone !in s.acts)
    && (ActRollback in s.acts ==> s.w.rolledBack)
    && (s.w.pending && s.w.rolledBack ==> ActRollback in s.acts)
  }

  ghost predicate Inv(s: System) {
    OneClosurePerWindow(s) && PcsInv(s) && OwnRunInv(s) && LogInv(s) && ActsInv(s) &&
    RetriesFollowFailure(s.log) && NeverAfterSuccess(s.log)
  }

  /** Appending an event keeps the facts about the log, given what the new event must satisfy. */
  lemma AppendEvent(log: seq<Event>, e: Event)
    requires RetriesFollowFailure(log) && NeverAfterSuccess(log)
    requires e.Claimed? ==> forall i | 0 <= i < |log| && log[i].Claimed? && log[i].epoch == e.epoch ::
                              !e.auto && FailedBetween(log, i, |log|)
    requires e.Claimed? ==> forall i | 0 <= i < |log| && log[i].RecordedDone? :: log[i].epoch != e.epoch
    ensures RetriesFollowFailure(log + [e]) && NeverAfterSuccess(log + [e])
    ensures forall i, j | FailedBetween(log, i, j) :: FailedBetween(log + [e], i, j)
  {
    var now := log + [e];
    forall i, j | FailedBetween(log, i, j)
      ensures FailedBetween(now, i, j)
    {
      var k :| 0 <= i < k < j <= |log| && log[k] == RecordedFailed(log[i].epoch);
      assert now[k] == RecordedFailed(now[i].epoch);
    }
  }

  lemma ArmKeepsInv(s: System, d: Durations, now: int, rb: bool, rs: bool)
    requires Inv(s)
    ensures Inv(After(s, d, DoArm(now, rb, rs)))
  {
  }

  lemma TickKeepsActs(s: System, d: Durations, e: nat, now: int, h: Health)
    requires ActsInv(s)
    ensures ActsInv(AfterTick(s, d, e, now, h))
    ensures var a := Tick(s.w, d, now, h).1; a != ActNone ==> a in AfterTick(s, d, e, now, h).acts
  {
    var (w, a) := Tick(s.w, d, now, h);
    var t := AfterTick(s, d, e, now, h);
    assert t.w == w && (if s.w.pending then t.acts == s.acts + [a] else t.acts == s.acts && w == s.w && a == ActNone);
    if s.w.pending { VerdictFacts(s.w, d, now, h); }
    hide AfterTick, Tick;
    if s.w.pending {
      assert forall x :: x in t.acts <==> x in s.acts || x == a;
      EscalationMore(s.acts, a);
      hide Escalation;
    }
  }

  lemma VerdictFacts(w: Window, d: Durations, now: int, h: Health)
    requires w.pending
    ensures var (v, a) := Tick(w, d, now, h);
            && v.pending == (a != ActDone && a != ActReboot)
            && v.rolledBack == (w.rolledBack || a == ActRollback)
            && (a == ActRollback ==> !w.rolledBack) && (a == ActReboot ==> w.rolledBack)
  {
  }

  lemma EscalationMore(acts: seq<Action>, a: Action)
    requires Escalation(acts) && ActReboot !in acts && ActDone !in acts
    requires a == ActRollback ==> ActRollback !in acts
    requires a == ActReboot ==> ActRollback in acts
    ensures Escalation(acts + [a])
  {
    var more := acts + [a];
    assert forall i | 0 <= i < |acts| :: more[i] == acts[i] && acts[i] in acts;
  }

  /** A step that leaves the claims and the log as they are, and only takes verdicts from ticks. */
  lemma FrameKeepsInv(s: System, s': System)
    requires Inv(s) && ActsInv(s') && s'.log == s.log
    requires SameClaims(s.w, s'.w)
    requires forall a | a in s'.pcs :: a in s.pcs
    requires forall a | a in s'.pcs ::
               s'.pcs[a] == s.pcs[a] || (!Holding(s'.pcs[a]) &&
               (s'.pcs[a] == GotRollback ==> ActRollback in s'.acts) &&
               (s'.pcs[a] == GotReboot ==> ActReboot in s'.acts))
    requires forall x | x in s.acts :: x in s'.acts
    ensures Inv(s')
  {
  }

  lemma TickKeepsInv(s: System, d: Durations, e: nat, now: int, h: Health)
    requires Inv(s) && Run(e) in s.pcs && s.pcs[Run(e)].Probing?
    ensures Inv(AfterTick(s, d, e, now, h))
  {
    TickKeepsActs(s, d, e, now, h);
    TickFrame(s, d, e, now, h);
    hide AfterTick, Tick, Inv, ActsInv, SameClaims, Observe;
    FrameKeepsInv(s, AfterTick(s, d, e, now, h));
  }

  /** What a tick leaves of the records, and where it sends the goroutine. */
  lemma TickFrame(s: System, d: Durations, e: nat, now: int, h: Health)
    requires ActsInv(s) && Run(e) in s.pcs
    ensures var t, a := AfterTick(s, d, e, now, h), Tick(s.w, d, now, h).1;
            && ActsInv(s) && t.log == s.log && (forall x | x in s.acts :: x in t.acts) && (a != ActNone ==> a in t.acts)
            && t.pcs == (if a == ActDone then s.pcs - {Run(e)}
                         else s.pcs[Run(e) := if a == ActNone then Watching
                                              else if a == ActRollback then GotRollback else GotReboot])
  {
    TickKeepsActs(s, d, e, now, h);
    hide Tick, ActsInv;
  }

  lemma ClaimKeepsInv(s: System, e: nat)
    requires Inv(s) && At(s, Run(e), GotRollback)
    ensures Inv(AfterClaim(s, e))
  {
    if s.w.hasRollback && Claim(s.w, e).1 {
      AppendEvent(s.log, Claimed(e, true));
    }
  }

  lemma RebootKeepsInv(s: System, e: nat)
    requires Inv(s) && At(s, Run(e), GotReboot)
    ensures Inv(AfterReboot(s, e))
  {
    AppendEvent(s.log, Rebooted(e));
  }

  lemma MarkKeepsInv(s: System, e: nat)
    requires Inv(s) && Run(e) in s.pcs && s.pcs[Run(e)].Returned?
    ensures Inv(AfterMark(s, e, s.pcs[Run(e)].o))
  {
    var o := s.pcs[Run(e)].o;
    var s' := AfterMark(s, e, o);
    if s.w.epoch == e {
      var ev := if o == Succeeded then RecordedDone(e) else RecordedFailed(e);
      AppendEvent(s.log, ev);
      assert s'.log == s.log + [ev] && s'.log[|s.log|] == ev;
    }
  }

  lemma BeginKeepsInv(s: System, id: nat, only: bool, window: nat)
    requires Inv(s) && Call(id) !in s.pcs
    ensures Inv(AfterBegin(s, id, only, window))
  {
    var (w, b) := RollbackBegin(s.w, only, window);
    if b.BeginRun? {
      RunBegins(s, id, only, window);
    } else {
      RefusedBegins(s, only, window);
    }
  }

  lemma RefusedBegins(s: System, only: bool, window: nat)
    requires Inv(s) && !RollbackBegin(s.w, only, window).1.BeginRun?
    ensures var (w, b) := RollbackBegin(s.w, only, window); Inv(s.(w := w, live := s.live && b != BeginFinalized))
  {
  }

  lemma RunBegins(s: System, id: nat, only: bool, window: nat)
    requires Inv(s) && Call(id) !in s.pcs && RollbackBegin(s.w, only, window).1.BeginRun?
    ensures Inv(AfterBegin(s, id, only, window))
  {
    var w, s' := RollbackBegin(s.w, only, window).0, AfterBegin(s, id, only, window);
    var e := s.w.epoch;
    assert w.epoch == e && w.dispatched && !w.rollbackDone && !w.rollbackFailed;
    assert w.pending == s.w.pending && w.rolledBack == s.w.rolledBack;
    assert s.w.dispatched ==> s.w.rollbackFailed;
    assert !(s.w.rollbackDone && !s.w.rollbackFailed);
    var pc := if w.hasRollback then Calling(e) else Returned(e, Succeeded);
    var more := if w.hasRollback then [Claimed(e, false)] else [];
    assert s' == s.(w := w, pcs := s.pcs[Call(id) := pc], log := s.log + more);
    assert s.log + [] == s.log;
    hide RollbackBegin, AfterBegin;
    NewHolder(s, s', Call(id));
    if w.hasRollback { AppendEvent(s.log, Claimed(e, false)); }
    NewClaim(s, s');
    hide PcsInv, LogInv, OneClosurePerWindow;
  }

  /** With no closure of the current window in flight, one more actor may hold it. */
  lemma NewHolder(s: System, s': System, a: Actor)
    requires OneClosurePerWindow(s) && PcsInv(s) && OwnRunInv(s) && a !in s.pcs && a.Call?
    requires s.w.dispatched ==> s.w.rollbackFailed
    requires a in s'.pcs && s'.pcs == s.pcs[a := s'.pcs[a]] && Holding(s'.pcs[a]) && s'.pcs[a].window == s.w.epoch
    requires s'.w.epoch == s.w.epoch && s'.w.dispatched && !s'.w.rollbackDone && !s'.w.rollbackFailed
    requires s'.acts == s.acts
    ensures OneClosurePerWindow(s') && PcsInv(s') && OwnRunInv(s')
  {
    assert forall b | b in s.pcs && Holding(s.pcs[b]) :: s.pcs[b].window < s.w.epoch;
  }

  lemma NewClaim(s: System, s': System)
    requires LogInv(s) && ActsInv(s) && s'.acts == s.acts
    requires s'.w.pending == s.w.pending && s'.w.rolledBack == s.w.rolledBack
    requires !(s.w.rollbackDone && !s.w.rollbackFailed)
    requires s'.w.epoch == s.w.epoch && s'.w.dispatched && !s'.w.rollbackDone && !s'.w.rollbackFailed
    requires s'.log == s.log || s'.log == s.log + [Claimed(s.w.epoch, false)]
    ensures LogInv(s') && ActsInv(s')
  {
  }

  lemma EndKeepsInv(s: System, id: nat)
    requires Inv(s) && Call(id) in s.pcs && s.pcs[Call(id)].Returned?
    ensures Inv(AfterEnd(s, id, s.pcs[Call(id)].window, s.pcs[Call(id)].o))
  {
    var window, o := s.pcs[Call(id)].window, s.pcs[Call(id)].o;
    var e := RollbackEnd(s.w, window, o).1;
    if e == EndRolledBack {
      EndedKeepsInv(s, id);
    } else {
      var s' := AfterEnd(s, id, window, o);
      assert s'.w == s.w && s'.log == s.log;
      hide LogInv, ActsInv, RetriesFollowFailure, NeverAfterSuccess, RollbackEnd;
      SameLog(s, s');
    }
  }

  lemma EndedKeepsInv(s: System, id: nat)
    requires Inv(s) && Call(id) in s.pcs && s.pcs[Call(id)].Returned?
    requires RollbackEnd(s.w, s.pcs[Call(id)].window, s.pcs[Call(id)].o).1 == EndRolledBack
    ensures Inv(AfterEnd(s, id, s.pcs[Call(id)].window, s.pcs[Call(id)].o))
  {
    AppendEvent(s.log, RecordedDone(s.pcs[Call(id)].window));
  }

  lemma MarkFailedKeepsInv(s: System, id: nat)
    requires Inv(s) && Call(id) in s.pcs && s.pcs[Call(id)].Failing?
    ensures Inv(AfterMarkFailed(s, id, s.pcs[Call(id)].window))
  {
    var ev := RecordedFailed(s.pcs[Call(id)].window);
    AppendEvent(s.log, ev);
    assert (s.log + [ev])[|s.log|] == ev;
  }

  lemma StepKeepsInv(s: System, d: Durations, t: Step)
    requires Inv(s) && Enabled(s, t)
    ensures Inv(After(s, d, t))
  {
    hide Inv, AfterTick, AfterClaim, AfterReboot, AfterMark, AfterBegin, AfterEnd, AfterMarkFailed;
    match t
    case DoArm(now, rb, rs) => ArmKeepsInv(s, d, now, rb, rs);
    case DoTick(e, h) => TickKeepsInv(s, d, e, s.pcs[Run(e)].at, h);
    case DoLook(e) => RunMoveKeepsInv(s, d, t);
    case DoProbe(e, now) => RunMoveKeepsInv(s, d, t);
    case DoQuit(e) => RunMoveKeepsInv(s, d, t);
    case DoClaim(e) => ClaimKeepsInv(s, e);
    case DoReboot(e) => RebootKeepsInv(s, e);
    case DoReturn(a, o) => ReturnKeepsInv(s, d, a, o);
    case DoMark(e) => MarkKeepsInv(s, e);
    case DoBegin(id, only, e) => BeginKeepsInv(s, id, only, e);
    case DoEnd(id) => EndKeepsInv(s, id);
    case DoMarkFailed(id) => MarkFailedKeepsInv(s, id);
    case DoConfirm => CloseKeepsInv(s, Confirm(s.w));
    case DoDisarm => CloseKeepsInv(s, Disarm(s.w));
    case DoMarkRolledBack => if MarkRolledBack(s.w) != s.w { CloseKeepsInv(s, MarkRolledBack(s.w)); }
  }

  lemma RunMoveKeepsInv(s: System, d: Durations, t: Step)
    requires Inv(s) && Enabled(s, t) && (t.DoLook? || t.DoProbe? || t.DoQuit?)
    ensures Inv(After(s, d, t))
  {
    assert ActsInv(s);
    hide Inv, ActsInv;
    FrameKeepsInv(s, After(s, d, t));
  }

  lemma ReturnKeepsInv(s: System, d: Durations, a: Actor, o: Outcome)
    requires Inv(s) && Enabled(s, DoReturn(a, o))
    ensures Inv(After(s, d, DoReturn(a, o)))
  {
    hide LogInv, ActsInv, RetriesFollowFailure, NeverAfterSuccess;
    SameLog(s, After(s, d, DoReturn(a, o)));
  }

  lemma SameLog(s: System, s': System)
    requires LogInv(s) && ActsInv(s) && s'.w == s.w && s'.log == s.log && s'.acts == s.acts
    ensures LogInv(s') && ActsInv(s')
  {
  }

  /** Keep, Disarm and MarkRolledBack: a window no goroutine and no record belongs to. */
  lemma CloseKeepsInv(s: System, w: Window)
    requires Inv(s) && w.epoch == s.w.epoch + 1 && !w.pending && (s.w.rolledBack ==> w.rolledBack)
    ensures Inv(s.(w := w, live := false))
  {
  }

  lemma {:induction false} EveryRunKeepsInv(d: Durations, run: seq<Step>)
    requires IsRun(d, run)
    ensures Inv(Result(d, run))
  {
    if run != [] {
      var before := run[..|run| - 1];
      EveryRunKeepsInv(d, before);
      StepKeepsInv(Result(d, before), d, run[|run| - 1]);
    }
  }

  // ---- Theorems about every run -------------------------------------------------------------------

  /** In every reachable state each window has at most one closure in flight, a window's second closure
      is a manual retry after a recorded failure, no closure runs after a recorded success, and so the
      automatic path claims at most once. */
  lemma RollbackDiscipline(d: Durations, run: seq<Step>)
    requires IsRun(d, run)
    ensures var s := Result(d, run);
            && OneClosurePerWindow(s) && RetriesFollowFailure(s.log) && NeverAfterSuccess(s.log)
            && forall i, j | 0 <= i < j < |s.log| && s.log[j] == Claimed(s.log[i].epoch, true) :: !s.log[i].Claimed?
  {
    EveryRunKeepsInv(d, run);
    AutoClaimsComeFirst(Result(d, run).log);
  }

  lemma AutoClaimsComeFirst(log: seq<Event>)
    requires RetriesFollowFailure(log)
    ensures forall i, j | 0 <= i < j < |log| && log[j] == Claimed(log[i].epoch, true) :: !log[i].Claimed?
  {
  }

  /** The automatic rollback of a window and its reboot answer that window's own verdicts, never another
      window's; and the verdicts come in order, the reboot after the rollback. Whether a rollback was also
      run is another question: see FailsafeReboot. */
  lemma VerdictsInOrder(d: Durations, run: seq<Step>, t: Step)
    requires IsRun(d, run) && Enabled(Result(d, run), t)
    ensures var s := Result(d, run);
            var s' := After(s, d, t);
            && Escalation(s.acts) && Escalation(s'.acts)
            && (t.DoClaim? && s'.log != s.log ==> t.run == s.w.epoch && ActRollback in s.acts)
            && (t.DoReboot? && s'.log != s.log ==> t.run == s.w.epoch && ActRollback in s.acts && ActReboot in s.acts)
  {
    EveryRunKeepsInv(d, run);
    StepKeepsInv(Result(d, run), d, t);
  }

  /** The window a step was begun for, when it names one. */
  function WindowOf(s: System, t: Step): int
    requires Enabled(s, t)
  {
    match t
    case DoClaim(e) => e
    case DoReboot(e) => e
    case DoMark(e) => e
    case DoBegin(_, only, e) => if only then e else s.w.epoch
    case DoEnd(id) => s.pcs[Call(id)].window
    case DoMarkFailed(id) => s.pcs[Call(id)].window
    case _ => s.w.epoch
  }

  /** Epochs only grow, so once a later Arm, Keep, Disarm or MarkRolledBack has replaced the window a
      claim, mark, reboot or rollback-end was begun for, that step changes neither the Manager nor the
      record, in any continuation. */
  lemma {:induction false} SupersededStepsChangeNothing(d: Durations, run: seq<Step>, more: seq<Step>, t: Step, e: nat)
    requires IsRun(d, run) && IsRun(d, run + more) && e < Result(d, run).w.epoch
    requires Enabled(Result(d, run + more), t) && WindowOf(Result(d, run + more), t) == e
    ensures var s := Result(d, run + more);
            e < s.w.epoch && After(s, d, t).w == s.w && After(s, d, t).log == s.log
  {
    EpochsGrow(d, run, more);
    EveryRunKeepsInv(d, run + more);
  }

  lemma {:induction false} EpochsGrow(d: Durations, run: seq<Step>, more: seq<Step>)
    requires IsRun(d, run) && IsRun(d, run + more)
    ensures Result(d, run).w.epoch <= Result(d, run + more).w.epoch
    decreases |more|
  {
    if more == [] {
      assert run + more == run;
    } else {
      var less := more[..|more| - 1];
      assert (run + more)[..|run + more| - 1] == run + less;
      EpochsGrow(d, run, less);
      StepGrowsEpoch(Result(d, run + less), d, more[|more| - 1]);
    }
  }

  lemma StepGrowsEpoch(s: System, d: Durations, t: Step)
    requires Enabled(s, t)
    ensures s.w.epoch <= After(s, d, t).w.epoch
  {
    match t
    case DoArm(_, _, _) =>
    case DoTick(_, _) =>
    case _ =>
  }

  // ---- How long connectivity was measured as bad --------------------------------------------------

  /** A clock that does not step back. */
  ghost predicate Clocked(ticks: seq<Observation>) {
    forall i | 0 <= i < |ticks| - 1 :: ticks[i].at <= ticks[i + 1].at
  }

  /** And that has started. */
  ghost predicate Started(ticks: seq<Observation>) { forall i | 0 <= i < |ticks| :: ticks[i].at > 0 }

  /** Some tick was Down since the last Up. */
  predicate DownSinceUp(ticks: seq<Observation>) {
    ticks != [] &&
    (ticks[|ticks| - 1].h == Down || (ticks[|ticks| - 1].h == Unknown && DownSinceUp(ticks[..|ticks| - 1])))
  }

  /** The intervals that end in a Down tick, summed since the first Down after the last Up: a blind
      interval, one that ends in Unknown, adds nothing. */
  function MeasuredBad(ticks: seq<Observation>): int {
    if ticks == [] then 0
    else
      var before, last := ticks[..|ticks| - 1], ticks[|ticks| - 1];
      match last.h
      case Up => 0
      case Unknown => MeasuredBad(before)
      case Down => if DownSinceUp(before) then MeasuredBad(before) + last.at - before[|before| - 1].at else 0
  }

  /** Of the same stretch, the blind intervals that begin at or before time 0, which reads as no tick. */
  function BlindAtZero(ticks: seq<Observation>): int {
    if ticks == [] then 0
    else
      var before, last := ticks[..|ticks| - 1], ticks[|ticks| - 1];
      match last.h
      case Up => 0
      case Unknown =>
        if DownSinceUp(before) && before[|before| - 1].at <= 0
        then BlindAtZero(before) + last.at - before[|before| - 1].at
        else BlindAtZero(before)
      case Down => BlindAtZero(before)
  }

  /** What tickHealth compares: badSince is pushed forward over the blind intervals it can see. */
  function ComparedBad(ticks: seq<Observation>): int { MeasuredBad(ticks) + BlindAtZero(ticks) }

  ghost predicate ClockInv(s: System) {
    Clocked(s.ticks) && s.ticks != [] ==>
      && s.w.lastAt == s.ticks[|s.ticks| - 1].at
      && s.w.bad == DownSinceUp(s.ticks)
      && (s.w.bad ==> s.w.lastAt - s.w.badSince == ComparedBad(s.ticks) >= 0)
  }

  lemma Append(ticks: seq<Observation>, o: Observation)
    ensures Clocked(ticks + [o]) ==> Clocked(ticks) && (ticks != [] ==> ticks[|ticks| - 1].at <= o.at)
    ensures DownSinceUp(ticks + [o]) == (o.h == Down || (o.h == Unknown && DownSinceUp(ticks)))
    ensures MeasuredBad(ticks + [o]) ==
            if o.h == Unknown then MeasuredBad(ticks)
            else if o.h == Down && DownSinceUp(ticks) then MeasuredBad(ticks) + o.at - ticks[|ticks| - 1].at
            else 0
    ensures BlindAtZero(ticks + [o]) ==
            if o.h == Up then 0
            else if o.h == Unknown && DownSinceUp(ticks) && ticks[|ticks| - 1].at <= 0
            then BlindAtZero(ticks) + o.at - ticks[|ticks| - 1].at
            else BlindAtZero(ticks)
  {
    ClockedBefore(ticks, o);
    DownWith(ticks, o);
    MeasuredWith(ticks, o);
    BlindWith(ticks, o);
    hide Clocked, MeasuredBad, BlindAtZero;
  }

  lemma DownWith(ticks: seq<Observation>, o: Observation)
    ensures DownSinceUp(ticks + [o]) == (o.h == Down || (o.h == Unknown && DownSinceUp(ticks)))
  {
    assert (ticks + [o])[..|ticks|] == ticks;
  }

  lemma MeasuredWith(ticks: seq<Observation>, o: Observation)
    ensures DownSinceUp(ticks) ==> ticks != []
    ensures MeasuredBad(ticks + [o]) ==
            if o.h == Unknown then MeasuredBad(ticks)
            else if o.h == Down && DownSinceUp(ticks) then MeasuredBad(ticks) + o.at - ticks[|ticks| - 1].at
            else 0
  {
    assert (ticks + [o])[..|ticks|] == ticks;
    assert DownSinceUp(ticks) ==> ticks != [];
    hide DownSinceUp;
  }

  lemma BlindWith(ticks: seq<Observation>, o: Observation)
    ensures DownSinceUp(ticks) ==> ticks != []
    ensures BlindAtZero(ticks + [o]) ==
            if o.h == Up then 0
            else if o.h == Unknown && DownSinceUp(ticks) && ticks[|ticks| - 1].at <= 0
            then BlindAtZero(ticks) + o.at - ticks[|ticks| - 1].at
            else BlindAtZero(ticks)
  {
    assert (ticks + [o])[..|ticks|] == ticks;
    assert DownSinceUp(ticks) ==> ticks != [];
    hide DownSinceUp;
  }

  lemma ClockedBefore(ticks: seq<Observation>, o: Observation)
    ensures Clocked(ticks + [o]) ==> Clocked(ticks) && (ticks != [] ==> ticks[|ticks| - 1].at <= o.at)
  {
    var next := ticks + [o];
    if Clocked(next) {
      forall i | 0 <= i < |ticks| - 1 ensures ticks[i].at <= ticks[i + 1].at {
        assert next[i].at <= next[i + 1].at && next[i] == ticks[i] && next[i + 1] == ticks[i + 1];
      }
      if ticks != [] {
        assert next[|ticks| - 1].at <= next[|ticks|].at && next[|ticks| - 1] == ticks[|ticks| - 1];
      }
    }
  }

  /** Nothing bad is measured while nothing has been Down. */
  lemma {:induction false} NothingBadYet(ticks: seq<Observation>)
    requires !DownSinceUp(ticks)
    ensures MeasuredBad(ticks) == 0 && BlindAtZero(ticks) == 0
  {
    if ticks != [] && ticks[|ticks| - 1].h == Unknown { NothingBadYet(ticks[..|ticks| - 1]); }
  }

  /** Once the clock has started the compared time is the measured one. */
  lemma {:induction false} StartedComparesMeasured(ticks: seq<Observation>)
    requires Started(ticks)
    ensures ComparedBad(ticks) == MeasuredBad(ticks)
  {
    if ticks != [] {
      var before := ticks[..|ticks| - 1];
      assert Started(before) by { assert forall i | 0 <= i < |before| :: before[i] == ticks[i]; }
      StartedComparesMeasured(before);
    }
  }

  lemma TickTimes(w: Window, d: Durations, now: int, h: Health)
    requires w.pending
    ensures var v := Tick(w, d, now, h).0;
            && v.lastAt == now && (v.bad <==> h == Down || (h == Unknown && w.bad))
            && (h == Down ==> v.badSince == if w.bad then w.badSince else now)
            && (h == Unknown && w.bad && w.badSince <= w.lastAt <= now ==>
                  v.badSince == if w.lastAt > 0 then w.badSince + now - w.lastAt else w.badSince)
  {
  }

  lemma TickKeepsClock(s: System, d: Durations, e: nat, now: int, h: Health)
    requires ClockInv(s) && (s.ticks == [] ==> !s.w.bad)
    ensures var t := AfterTick(s, d, e, now, h); ClockInv(t) && (t.ticks == [] ==> !t.w.bad)
  {
    TickObserved(s, d, e, now, h);
    hide AfterTick;
    if s.w.pending {
      TickTimes(s.w, d, now, h);
      Append(s.ticks, Observation(now, h));
      hide Tick, Clocked, DownSinceUp, MeasuredBad, BlindAtZero;
      if s.ticks == [] { NothingOnNothing(); }
      else if !s.w.bad && Clocked(s.ticks) { NothingBadYet(s.ticks); }
    }
  }

  lemma TickObserved(s: System, d: Durations, e: nat, now: int, h: Health)
    ensures var t := AfterTick(s, d, e, now, h);
            if s.w.pending
            then t.ticks == s.ticks + [Observation(now, h)] && t.w == Tick(s.w, d, now, h).0
            else t.ticks == s.ticks && t.w == s.w
  {
    hide TickUnknown, TickUp, TickDown;
  }

  lemma NothingOnNothing()
    ensures !DownSinceUp([]) && MeasuredBad([]) == 0 && BlindAtZero([]) == 0
  {
  }

  lemma OtherStepsKeepClock(s: System, d: Durations, t: Step)
    requires Enabled(s, t) && !t.DoTick? && !t.DoArm?
    ensures SameClock(s, After(s, d, t))
  {
  }

  lemma {:induction false} EveryRunKeepsClock(d: Durations, run: seq<Step>)
    requires IsRun(d, run)
    ensures ClockInv(Result(d, run)) && (Result(d, run).ticks == [] ==> !Result(d, run).w.bad)
  {
    if run != [] {
      var before, t := run[..|run| - 1], run[|run| - 1];
      EveryRunKeepsClock(d, before);
      if t.DoTick? {
        hide ClockInv;
        TickKeepsClock(Result(d, before), d, t.run, Result(d, before).pcs[Run(t.run)].at, t.h);
      } else if !t.DoArm? {
        OtherStepsKeepClock(Result(d, before), d, t);
      }
    }
  }

  /** What a tick of a pending window answers, from the window's own history alone: a rollback at the
      first Down whose bad time reaches RollbackAfter, a reboot only after that verdict and at RebootAfter,
      nothing at all on Unknown, and the end of the watch on a healthy tick after the rollback or past the
      keep window. Once the clock has started the bad time is what was measured. */
  lemma TickVerdict(d: Durations, run: seq<Step>, now: int, h: Health)
    requires IsRun(d, run) && Result(d, run).w.pending
    requires Clocked(Result(d, run).ticks + [Observation(now, h)])
    ensures var s := Result(d, run);
            var rolledBack := ActRollback in s.acts;
            var ticks := s.ticks + [Observation(now, h)];
            var badFor := ComparedBad(ticks);
            && (Started(ticks) ==> badFor == MeasuredBad(ticks))
            && Tick(s.w, d, now, h).1 ==
               if h == Up then (if rolledBack || now >= s.w.deadline then ActDone else ActNone)
               else if h == Unknown then ActNone
               else if rolledBack then (if badFor >= d.rebootAfter then ActReboot else ActNone)
               else if badFor >= d.rollbackAfter then ActRollback else ActNone
  {
    var s := Result(d, run);
    var ticks := s.ticks + [Observation(now, h)];
    EveryRunKeepsInv(d, run);
    EveryRunKeepsClock(d, run);
    PendingRollback(s);
    if Started(ticks) { StartedComparesMeasured(ticks); }
    if h == Down { DownCompares(s, now); }
    hide Inv, ClockInv, MeasuredBad, BlindAtZero, DownSinceUp, Started, ComparedBad;
  }

  lemma PendingRollback(s: System)
    requires Inv(s) && s.w.pending
    ensures ActRollback in s.acts <==> s.w.rolledBack
  {
    hide OneClosurePerWindow, PcsInv, OwnRunInv, LogInv, RetriesFollowFailure, NeverAfterSuccess, Escalation;
  }

  /** On a Down tick the bad time is the one tickHealth works out. */
  lemma DownCompares(s: System, now: int)
    requires ClockInv(s) && (s.ticks == [] ==> !s.w.bad) && Clocked(s.ticks + [Observation(now, Down)])
    ensures ComparedBad(s.ticks + [Observation(now, Down)]) == if s.w.bad then now - s.w.badSince else 0
  {
    Append(s.ticks, Observation(now, Down));
    hide Clocked, DownSinceUp, MeasuredBad, BlindAtZero;
    if s.ticks == [] { NothingOnNothing(); } else if !s.w.bad { NothingBadYet(s.ticks); }
  }

  /** At time 0 a tick reads as none: the blind stretch after it is not pushed over, and brings the rollback
      although no bad time was measured. */
  lemma BlindTimeCountsFromTimeZero(d: Durations)
    requires d.rollbackAfter > 0
    ensures var t := d.rollbackAfter;
            var w := Tick(Arm(Fresh, d, 0, true, true), d, 0, Down).0;
            && Tick(Tick(w, d, t, Unknown).0, d, t, Down).1 == ActRollback
            && MeasuredBad([Observation(0, Down), Observation(t, Unknown), Observation(t, Down)]) == 0
  {
    var o0, o1, o2 := Observation(0, Down), Observation(d.rollbackAfter, Unknown), Observation(d.rollbackAfter, Down);
    Append([], o0);
    Append([o0], o1);
    Append([o0, o1], o2);
    assert [o0] + [o1] == [o0, o1] && [o0, o1] + [o2] == [o0, o1, o2];
  }
}
