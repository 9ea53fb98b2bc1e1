/** What the fields of the fail-safe window say of its history, over every run: the claim and outcome flags are the
    last record of the window, the phase is what the window was last told, the deadline is the keep window after
    Arm, and once Keep, Disarm or MarkRolledBack has closed a window nothing of it is left to happen. */
module FailsafeRecords {
  import opened Wrappers
  import opened Failsafe
  import opened FailsafeRuns
  import opened FailsafeLateProbes

  /** The window that is current is the one last armed; none has closed it since but its own end. */
  ghost predicate ArmedNow(d: Durations, run: seq<Step>)
    requires IsRun(d, run)
  {
    run != [] &&
    var t, before := run[|run| - 1], run[..|run| - 1];
    t.DoArm? || (ArmedNow(d, before) && Result(d, run).w.epoch == Result(d, before).w.epoch)
  }

  /** When the last window was armed. */
  function ArmedAt(run: seq<Step>): int {
    if run == [] then 0 else if run[|run| - 1].DoArm? then run[|run| - 1].now else ArmedAt(run[..|run| - 1])
  }

  /** The last claim or outcome recorded for a window. */
  function LastOf(log: seq<Event>, e: nat): (r: Option<Event>)
    ensures r.Some? ==> r.value in log && r.value.epoch == e && !r.value.Rebooted?
  {
    if log == [] then None
    else
      var last := log[|log| - 1];
      if last.epoch == e && !last.Rebooted? then Some(last) else LastOf(log[..|log| - 1], e)
  }

  lemma NextOf(log: seq<Event>, ev: Event, e: nat)
    ensures LastOf(log + [ev], e) == if ev.epoch == e && !ev.Rebooted? then Some(ev) else LastOf(log, e)
  {
    assert (log + [ev])[..|log|] == log;
  }

  // ---- The flags ----------------------------------------------------------------------------------

  /** Of a window with a closure: claimed, done and failed are its last record. */
  ghost predicate FlagsSay(s: System) {
    var last := LastOf(s.log, s.w.epoch);
    s.w.hasRollback ==>
      && (s.w.dispatched <==> last.Some?)
      && (s.w.rollbackDone <==> last == Some(RecordedDone(s.w.epoch)))
      && (s.w.rollbackFailed <==> last == Some(RecordedFailed(s.w.epoch)))
  }

  lemma {:induction false} NothingOfTheNext(log: seq<Event>, e: nat)
    requires forall i | 0 <= i < |log| :: log[i].epoch < e
    ensures LastOf(log, e) == None
  {
    if log != [] { NothingOfTheNext(log[..|log| - 1], e); }
  }

  lemma ArmSays(s: System, d: Durations, now: int, rb: bool, rs: bool)
    requires Inv(s)
    ensures FlagsSay(After(s, d, DoArm(now, rb, rs)))
  {
    assert LogInv(s);
    NothingOfTheNext(s.log, s.w.epoch + 1);
  }

  lemma SameFlags(s: System, s': System)
    requires FlagsSay(s) && SameClaims(s.w, s'.w) && s'.w.hasRollback == s.w.hasRollback && s'.log == s.log
    ensures FlagsSay(s')
  {
  }

  lemma TickSays(s: System, d: Durations, e: nat, now: int, h: Health)
    requires FlagsSay(s)
    ensures FlagsSay(AfterTick(s, d, e, now, h))
  {
    assert Tick(s.w, d, now, h).0.hasRollback == s.w.hasRollback;
    var u := AfterTick(s, d, e, now, h);
    assert u.log == s.log && u.w.hasRollback == s.w.hasRollback;
    hide FlagsSay, Tick, AfterTick;
    SameFlags(s, u);
  }

  /** A record of this window, with the flags that go with it. */
  lemma RecordSays(s: System, s': System, ev: Event)
    requires s'.log == s.log + [ev] && ev.epoch == s'.w.epoch && s'.w.hasRollback
    requires !ev.Rebooted? && s'.w.dispatched && s'.w.rollbackDone == ev.RecordedDone?
    requires s'.w.rollbackFailed == ev.RecordedFailed?
    ensures FlagsSay(s')
  {
    NextOf(s.log, ev, s'.w.epoch);
    hide LastOf;
  }

  lemma RebootSays(s: System, e: nat)
    requires FlagsSay(s)
    ensures FlagsSay(AfterReboot(s, e))
  {
    NextOf(s.log, Rebooted(e), s.w.epoch);
    hide LastOf;
  }

  lemma ClaimSays(s: System, e: nat)
    requires FlagsSay(s) && Inv(s) && At(s, Run(e), GotRollback)
    ensures FlagsSay(AfterClaim(s, e))
  {
    var u := AfterClaim(s, e);
    assert OwnRunInv(s);
    hide Inv;
    if u.log == s.log + [Claimed(e, true)] {
      hide FlagsSay;
      RecordSays(s, u, Claimed(e, true));
    } else {
      assert u.w == s.w;
    }
  }

  lemma MarkSays(s: System, e: nat, o: Outcome)
    requires FlagsSay(s) && PcsInv(s) && Run(e) in s.pcs && s.pcs[Run(e)].Returned?
    ensures FlagsSay(AfterMark(s, e, o))
  {
    var u := AfterMark(s, e, o);
    if s.w.epoch == e {
      assert s.pcs[Run(e)].window == e;
      if s.w.hasRollback { RecordSays(s, u, MarkRecord(e, o)); }
      hide FlagsSay;
    }
  }

  lemma BeginSays(s: System, id: nat, only: bool, window: nat)
    requires FlagsSay(s) && Call(id) !in s.pcs
    ensures FlagsSay(AfterBegin(s, id, only, window))
  {
    var u := AfterBegin(s, id, only, window);
    if s.w.hasRollback && RollbackBegin(s.w, only, window).1.BeginRun? {
      RecordSays(s, u, Claimed(s.w.epoch, false));
    }
  }

  lemma EndSays(s: System, id: nat, window: nat, o: Outcome)
    requires FlagsSay(s) && PcsInv(s) && At(s, Call(id), Returned(window, o))
    ensures FlagsSay(AfterEnd(s, id, window, o))
  {
    var u := AfterEnd(s, id, window, o);
    if RollbackEnd(s.w, window, o).1 == EndRolledBack && s.w.hasRollback {
      RecordSays(s, u, RecordedDone(window));
    }
  }

  lemma FailSays(s: System, id: nat, window: nat)
    requires FlagsSay(s) && PcsInv(s) && At(s, Call(id), Failing(window))
    ensures FlagsSay(AfterMarkFailed(s, id, window))
  {
    var u := AfterMarkFailed(s, id, window);
    if s.w.epoch == window && s.w.hasRollback {
      RecordSays(s, u, RecordedFailed(window));
    }
  }

  predicate Closes(t: Step) { t.DoConfirm? || t.DoDisarm? || t.DoMarkRolledBack? }

  lemma StepSays(s: System, d: Durations, t: Step)
    requires FlagsSay(s) && Inv(s) && Enabled(s, t) && !t.DoArm? && !Closes(t)
    ensures FlagsSay(After(s, d, t))
  {
    assert PcsInv(s);
    hide FlagsSay, Inv, PcsInv, AfterTick, AfterClaim, AfterReboot, AfterMark, AfterBegin, AfterEnd, AfterMarkFailed;
    match t
    case DoTick(e, h) => TickSays(s, d, e, s.pcs[Run(e)].at, h);
    case DoClaim(e) => ClaimSays(s, e);
    case DoReboot(e) => RebootSays(s, e);
    case DoMark(e) => MarkSays(s, e, s.pcs[Run(e)].o);
    case DoBegin(id, only, e) => BeginSays(s, id, only, e);
    case DoEnd(id) => EndSays(s, id, s.pcs[Call(id)].window, s.pcs[Call(id)].o);
    case DoMarkFailed(id) => FailSays(s, id, s.pcs[Call(id)].window);
    case DoReturn(_, _) => SameFlags(s, After(s, d, t));
    case DoLook(_) => SameFlags(s, After(s, d, t));
    case DoProbe(_, _) => SameFlags(s, After(s, d, t));
    case DoQuit(_) => SameFlags(s, After(s, d, t));
  }

  /** Closing a window takes its epoch, unless MarkRolledBack finds nothing to close. */
  lemma CloseTakesEpoch(s: System, d: Durations, t: Step)
    requires Closes(t) && Enabled(s, t)
    ensures After(s, d, t) == s || After(s, d, t).w.epoch == s.w.epoch + 1
  {
  }

  lemma {:induction false} EveryRunSays(d: Durations, run: seq<Step>)
    requires IsRun(d, run) && ArmedNow(d, run)
    ensures FlagsSay(Result(d, run))
  {
    hide FlagsSay, After, Enabled, Inv;
    var before, t := run[..|run| - 1], run[|run| - 1];
    EveryRunKeepsInv(d, before);
    if t.DoArm? {
      ArmSays(Result(d, before), d, t.now, t.hasRollback, t.canReboot);
    } else {
      EveryRunSays(d, before);
      if Closes(t) { CloseTakesEpoch(Result(d, before), d, t); }
      else { StepSays(Result(d, before), d, t); }
    }
  }

  /** What a manual rollback of an armed window with a closure does is decided by the window's last record: none or a
      failure, and its closure is claimed; a claim, and it is refused, changing nothing; a success, and it only
      ends the watch. A call for another window is refused. */
  lemma ManualRollbackByRecord(d: Durations, run: seq<Step>, id: nat, only: bool, e: nat)
    requires IsRun(d, run) && ArmedNow(d, run) && Result(d, run).w.hasRollback
    requires Enabled(Result(d, run), DoBegin(id, only, e))
    ensures var s := Result(d, run);
            var u, last := After(s, d, DoBegin(id, only, e)), LastOf(s.log, s.w.epoch);
            if (only && e != s.w.epoch) || (last.Some? && last.value.Claimed?) then u == s
            else if last.Some? && last.value.RecordedDone? then
              u.log == s.log && u.pcs == s.pcs && !u.w.pending && u.w.phase == RolledBack && u.w.rolledBack && !u.live
            else u.log == s.log + [Claimed(s.w.epoch, false)] && u.w.pending == s.w.pending &&
                 At(u, Call(id), Calling(s.w.epoch))
  {
    EveryRunSays(d, run);
    hide IsRun, Result, ArmedNow, LastOf;
  }

  /** And its own goroutine, told to roll back, claims the closure exactly when nothing is recorded yet. */
  lemma AutoRollbackByRecord(d: Durations, run: seq<Step>, e: nat)
    requires IsRun(d, run) && ArmedNow(d, run) && Result(d, run).w.hasRollback
    requires Enabled(Result(d, run), DoClaim(e))
    ensures var s := Result(d, run);
            var u := After(s, d, DoClaim(e));
            if e == s.w.epoch && LastOf(s.log, e) == None
            then u.log == s.log + [Claimed(e, true)] && At(u, Run(e), Calling(e))
            else u.log == s.log && u.w == s.w && At(u, Run(e), Watching)
  {
    EveryRunSays(d, run);
    hide IsRun, Result, ArmedNow, LastOf;
  }

  // ---- The phase ----------------------------------------------------------------------------------

  /** What the last tick of a window showed, before any verdict. */
  function Shown(ticks: seq<Observation>): Phase {
    if ticks == [] then Armed
    else match ticks[|ticks| - 1].h
      case Up => Armed
      case Unknown => Unverified
      case Down => Degraded
  }

  ghost predicate Recorded(s: System) { exists ev :: ev in s.log && ev.epoch == s.w.epoch && !ev.Rebooted? }

  /** The phase of an armed window, by its ticks, their verdicts and its records. */
  ghost predicate PhaseSays(s: System) {
    var failed := RecordedFailed(s.w.epoch) in s.log;
    && (s.w.rollbackFailed ==> failed) && (s.w.rollbackDone ==> Recorded(s)) && (failed ==> Recorded(s))
    && (s.w.pending && !failed ==> s.w.phase == if ActRollback in s.acts then RolledBack else Shown(s.ticks))
    && (s.w.pending && s.w.rollbackFailed && ActRollback !in s.acts ==> s.w.phase == RollbackFailed)
    && (s.w.phase == Reboot ==> !s.w.pending && s.w.canReboot && ActReboot in s.acts)
    && (!s.w.pending && !Recorded(s) && ActReboot in s.acts ==>
          s.w.phase == if s.w.canReboot then Reboot else RolledBack)
    && (!s.w.pending && !Recorded(s) && ActReboot !in s.acts ==>
          s.w.phase == if ActRollback in s.acts then RolledBack else LiveUnsaved)
  }

  lemma ArmShows(s: System, d: Durations, now: int, rb: bool, rs: bool)
    requires Inv(s)
    ensures PhaseSays(After(s, d, DoArm(now, rb, rs)))
  {
    assert LogInv(s);
    assert forall i | 0 <= i < |s.log| :: s.log[i].epoch <= s.w.epoch;
    hide Inv;
  }

  /** The verdict of a tick, and the phase it leaves. */
  lemma TickShows(w: Window, d: Durations, now: int, h: Health)
    requires w.pending
    ensures var (v, a) := Tick(w, d, now, h);
            && SameClaims(w, v) && v.canReboot == w.canReboot && v.pending == (a != ActDone && a != ActReboot)
            && (a == ActRollback ==> !w.rolledBack && v.phase == RolledBack)
            && (a == ActReboot ==> w.rolledBack && v.phase == if w.canReboot then Reboot else w.phase)
            && (a == ActDone ==> v.phase == if w.rolledBack || w.rollbackFailed then w.phase else LiveUnsaved)
            && (a == ActNone ==> v.phase == if w.rollbackFailed || (w.rolledBack && h != Up) then w.phase
                                            else Shown([Observation(now, h)]))
            && (a == ActNone && h == Up ==> !w.rolledBack) && (a == ActDone ==> h == Up)
  {
  }

  lemma TickKeepsPhase(s: System, d: Durations, e: nat, now: int, h: Health)
    requires PhaseSays(s) && ActsInv(s)
    ensures PhaseSays(AfterTick(s, d, e, now, h))
  {
    TickFields(s, d, e, now, h);
    hide Tick, AfterTick, PhaseSays, ActsInv;
    var u := AfterTick(s, d, e, now, h);
    if s.w.pending {
      TickShows(s.w, d, now, h);
      hide SameClaims;
      PendingPhase(s, d, u, Tick(s.w, d, now, h).1, now, h);
    } else {
      SamePhase(s, u);
    }
  }

  lemma TickFields(s: System, d: Durations, e: nat, now: int, h: Health)
    ensures var (w, a), u := Tick(s.w, d, now, h), AfterTick(s, d, e, now, h);
            && u.w == w && u.log == s.log
            && if s.w.pending then u.acts == s.acts + [a] && u.ticks == s.ticks + [Observation(now, h)]
               else u.acts == s.acts && u.ticks == s.ticks && w == s.w
  {
    hide TickUnknown, TickUp, TickDown;
  }

  lemma SamePhase(s: System, u: System)
    requires PhaseSays(s) && u.w == s.w && u.log == s.log && u.acts == s.acts && u.ticks == s.ticks
    ensures PhaseSays(u)
  {
  }

  lemma PendingPhase(s: System, d: Durations, u: System, a: Action, now: int, h: Health)
    requires PhaseSays(s) && ActsInv(s) && s.w.pending && u.log == s.log
    requires (u.w, a) == Tick(s.w, d, now, h) && u.acts == s.acts + [a] && u.ticks == s.ticks + [Observation(now, h)]
    ensures PhaseSays(u)
  {
    TickShows(s.w, d, now, h);
    assert ActRollback in u.acts <==> ActRollback in s.acts || a == ActRollback;
    assert ActReboot in u.acts <==> a == ActReboot;
    assert Recorded(u) <==> Recorded(s);
    hide Tick, Recorded, Escalation;
  }

  lemma ArmedPhase(s: System, s': System)
    requires PhaseSays(s) && s'.acts == s.acts && s'.ticks == s.ticks && s'.w == s.w
    requires exists ev: Event :: ev.Rebooted? && s'.log == s.log + [ev]
    ensures PhaseSays(s')
  {
    var ev :| s'.log == s.log + [ev] && ev.Rebooted?;
    LogMore(s.log, ev);
    hide Shown;
  }

  lemma LogMore(log: seq<Event>, ev: Event)
    ensures forall x :: x in log + [ev] <==> x in log || x == ev
  {
  }

  /** A record of the window: its claim, its success, or its failure. */
  lemma RecordedPhase(s: System, s': System, ev: Event)
    requires PhaseSays(s) && s'.log == s.log + [ev] && ev.epoch == s'.w.epoch == s.w.epoch && !ev.Rebooted?
    requires s'.acts == s.acts && s'.ticks == s.ticks && s'.w.canReboot == s.w.canReboot
    requires s'.w.rollbackFailed ==> ev.RecordedFailed?
    requires ev.Claimed? ==> s'.w.phase == s.w.phase && s'.w.pending == s.w.pending
    requires ev.RecordedFailed? ==> s'.w.phase == RollbackFailed
    requires ev.RecordedDone? ==> (s'.w.pending && s.w.pending && s'.w.phase == s.w.phase)
                                  || (!s'.w.pending &&
                                      (s'.w.phase == RolledBack || (s'.w.phase == s.w.phase && !s.w.pending)))
    ensures PhaseSays(s')
  {
    LogMore(s.log, ev);
    assert ev in s'.log;
    hide Shown;
  }

  lemma ClaimShows(s: System, e: nat)
    requires PhaseSays(s) && Inv(s) && At(s, Run(e), GotRollback)
    ensures PhaseSays(AfterClaim(s, e))
  {
    assert OwnRunInv(s);
    var u := AfterClaim(s, e);
    hide PhaseSays, Inv;
    if u.log == s.log + [Claimed(e, true)] { RecordedPhase(s, u, Claimed(e, true)); } else { SamePhase(s, u); }
  }

  lemma MarkShows(s: System, e: nat, o: Outcome)
    requires PhaseSays(s) && PcsInv(s) && Run(e) in s.pcs && s.pcs[Run(e)].Returned?
    ensures PhaseSays(AfterMark(s, e, o))
  {
    var u := AfterMark(s, e, o);
    hide PhaseSays;
    if s.w.epoch == e {
      assert s.pcs[Run(e)].window == e;
      RecordedPhase(s, u, MarkRecord(e, o));
    } else {
      SamePhase(s, u);
    }
  }

  lemma BeginShows(s: System, id: nat, only: bool, window: nat)
    requires PhaseSays(s) && Call(id) !in s.pcs
    ensures PhaseSays(AfterBegin(s, id, only, window))
  {
    var u := AfterBegin(s, id, only, window);
    if s.w.hasRollback && RollbackBegin(s.w, only, window).1.BeginRun? {
      hide PhaseSays;
      RecordedPhase(s, u, Claimed(s.w.epoch, false));
    }
    hide Shown;
  }

  lemma EndShows(s: System, id: nat, window: nat, o: Outcome)
    requires PhaseSays(s)
    ensures PhaseSays(AfterEnd(s, id, window, o))
  {
    var u := AfterEnd(s, id, window, o);
    hide PhaseSays;
    if RollbackEnd(s.w, window, o).1 == EndRolledBack {
      RecordedPhase(s, u, RecordedDone(window));
    } else {
      SamePhase(s, u);
    }
  }

  lemma FailShows(s: System, id: nat, window: nat)
    requires PhaseSays(s)
    ensures PhaseSays(AfterMarkFailed(s, id, window))
  {
    var u := AfterMarkFailed(s, id, window);
    hide PhaseSays;
    if s.w.epoch == window { RecordedPhase(s, u, RecordedFailed(window)); } else { SamePhase(s, u); }
  }

  lemma RebootShows(s: System, e: nat)
    requires PhaseSays(s)
    ensures PhaseSays(AfterReboot(s, e))
  {
    var u := AfterReboot(s, e);
    hide PhaseSays;
    if u.log == s.log + [Rebooted(e)] {
      assert Rebooted(e).Rebooted?;
      ArmedPhase(s, u);
    } else {
      SamePhase(s, u);
    }
  }

  lemma StepShows(s: System, d: Durations, t: Step)
    requires PhaseSays(s) && Inv(s) && Enabled(s, t) && !t.DoArm? && !Closes(t)
    ensures PhaseSays(After(s, d, t))
  {
    assert PcsInv(s) && ActsInv(s);
    hide PhaseSays, Inv, PcsInv, ActsInv;
    hide AfterTick, AfterClaim, AfterReboot, AfterMark, AfterBegin, AfterEnd, AfterMarkFailed;
    match t
    case DoTick(e, h) => TickKeepsPhase(s, d, e, s.pcs[Run(e)].at, h);
    case DoClaim(e) => ClaimShows(s, e);
    case DoReboot(e) => RebootShows(s, e);
    case DoMark(e) => MarkShows(s, e, s.pcs[Run(e)].o);
    case DoBegin(id, only, e) => BeginShows(s, id, only, e);
    case DoEnd(id) => EndShows(s, id, s.pcs[Call(id)].window, s.pcs[Call(id)].o);
    case DoMarkFailed(id) => FailShows(s, id, s.pcs[Call(id)].window);
    case DoReturn(_, _) => SamePhase(s, After(s, d, t));
    case DoLook(_) => SamePhase(s, After(s, d, t));
    case DoProbe(_, _) => SamePhase(s, After(s, d, t));
    case DoQuit(_) => SamePhase(s, After(s, d, t));
  }

  /** Over every run, while a window is the current one, its phase is what its ticks, their verdicts and its records
      make it: the last tick's until a verdict or a failure; rolled back from that verdict on; and in the end the
      reboot, the quiet end of the watch, or the verdict it had. */
  lemma {:induction false} PhaseTellsTheWindow(d: Durations, run: seq<Step>)
    requires IsRun(d, run) && ArmedNow(d, run)
    ensures PhaseSays(Result(d, run))
  {
    hide PhaseSays, After, Enabled, Inv;
    var before, t := run[..|run| - 1], run[|run| - 1];
    EveryRunKeepsInv(d, before);
    if t.DoArm? {
      ArmShows(Result(d, before), d, t.now, t.hasRollback, t.canReboot);
    } else {
      PhaseTellsTheWindow(d, before);
      if Closes(t) { CloseTakesEpoch(Result(d, before), d, t); }
      else { StepShows(Result(d, before), d, t); }
    }
  }

  // ---- The deadline -------------------------------------------------------------------------------

  lemma StepKeepsDeadline(s: System, d: Durations, t: Step)
    requires Enabled(s, t) && !t.DoArm?
    ensures After(s, d, t).w.deadline == s.w.deadline && (After(s, d, t).w.pending ==> s.w.pending)
  {
    hide Tick;
    match t
    case DoTick(e, h) =>
      TickFields(s, d, e, s.pcs[Run(e)].at, h);
      TickDeadline(s.w, d, s.pcs[Run(e)].at, h);
      hide AfterTick;
    case DoMark(e) => MarkKeepsDeadline(s, e, s.pcs[Run(e)].o);
    case DoBegin(id, only, e) => BeginKeepsDeadline(s, id, only, e);
    case DoEnd(id) => EndKeepsDeadline(s, id, s.pcs[Call(id)].window, s.pcs[Call(id)].o);
    case _ => hide AfterTick, AfterMark, AfterBegin, AfterEnd;
  }

  lemma MarkKeepsDeadline(s: System, e: nat, o: Outcome)
    ensures AfterMark(s, e, o).w.deadline == s.w.deadline && AfterMark(s, e, o).w.pending == s.w.pending
  {
    MarkedKeepsDeadline(s.w, e, o);
    hide MarkedWindow;
  }

  lemma MarkedKeepsDeadline(w: Window, e: nat, o: Outcome)
    ensures MarkedWindow(w, e, o).deadline == w.deadline && MarkedWindow(w, e, o).pending == w.pending
  {
    DoneKeepsDeadline(w, e);
    FailedKeepsDeadline(w, e);
    hide MarkDone, MarkFailed, SameMeasure;
  }

  lemma DoneKeepsDeadline(w: Window, e: nat)
    ensures MarkDone(w, e).deadline == w.deadline && MarkDone(w, e).pending == w.pending
  {
  }

  lemma FailedKeepsDeadline(w: Window, e: nat)
    ensures MarkFailed(w, e).deadline == w.deadline && MarkFailed(w, e).pending == w.pending
  {
  }

  lemma BeginKeepsDeadline(s: System, id: nat, only: bool, e: nat)
    ensures AfterBegin(s, id, only, e).w.deadline == s.w.deadline
    ensures AfterBegin(s, id, only, e).w.pending ==> s.w.pending
  {
  }

  lemma EndKeepsDeadline(s: System, id: nat, e: nat, o: Outcome)
    ensures AfterEnd(s, id, e, o).w.deadline == s.w.deadline && (AfterEnd(s, id, e, o).w.pending ==> s.w.pending)
  {
  }

  lemma TickDeadline(w: Window, d: Durations, now: int, h: Health)
    ensures Tick(w, d, now, h).0.deadline == w.deadline && (Tick(w, d, now, h).0.pending ==> w.pending)
  {
  }

  lemma {:induction false} DeadlineIsKeepWindow(d: Durations, run: seq<Step>)
    requires IsRun(d, run)
    ensures Result(d, run).w.pending ==> Result(d, run).w.deadline == ArmedAt(run) + d.keepWindow
  {
    hide After, Enabled;
    if run != [] {
      var before, t := run[..|run| - 1], run[|run| - 1];
      DeadlineIsKeepWindow(d, before);
      if t.DoArm? { ArmDeadline(Result(d, before), d, t); } else { StepKeepsDeadline(Result(d, before), d, t); }
    }
  }

  lemma ArmDeadline(s: System, d: Durations, t: Step)
    requires t.DoArm?
    ensures After(s, d, t).w.deadline == t.now + d.keepWindow
  {
  }

  /** So the watch ends on a healthy tick exactly after a rollback verdict, or the keep window after Arm. */
  lemma WatchEndsWhenKept(d: Durations, run: seq<Step>, e: nat, h: Health)
    requires IsRun(d, run) && Result(d, run).w.pending && Enabled(Result(d, run), DoTick(e, h))
    ensures var s := Result(d, run);
            var at := s.pcs[Run(e)].at;
            (Run(e) !in After(s, d, DoTick(e, h)).pcs) <==>
            h == Up && (ActRollback in s.acts || at >= ArmedAt(run) + d.keepWindow)
  {
    var s := Result(d, run);
    DeadlineIsKeepWindow(d, run);
    EveryRunKeepsInv(d, run);
    PendingRollback(s);
    hide Inv, ArmedAt, IsRun, Result;
  }

  // ---- Closed windows -----------------------------------------------------------------------------

  /** Nobody is left who could act for the current epoch. */
  ghost predicate Deserted(s: System) {
    !s.w.pending && Run(s.w.epoch) !in s.pcs &&
    forall a | a in s.pcs && Holding(s.pcs[a]) :: s.pcs[a].window < s.w.epoch
  }

  /** A step that neither arms nor closes a window nor asks for a rollback. */
  predicate Bystander(t: Step) { !t.DoArm? && !t.DoConfirm? && !t.DoDisarm? && !t.DoBegin? }

  lemma NothingIsLeft(s: System, d: Durations, t: Step)
    requires Deserted(s) && PcsInv(s) && s.w.phase != RollbackFailed && Enabled(s, t) && Bystander(t)
    ensures var u := After(s, d, t); u.w == s.w && u.log == s.log && Deserted(u)
  {
    match t
    case DoTick(e, h) =>
      TickFields(s, d, e, s.pcs[Run(e)].at, h);
      TickFrameOnly(s, d, e, s.pcs[Run(e)].at, h);
      hide AfterTick;
    case _ =>
  }

  lemma TickFrameOnly(s: System, d: Durations, e: nat, now: int, h: Health)
    requires !s.w.pending
    ensures AfterTick(s, d, e, now, h).pcs == s.pcs[Run(e) := Watching] && AfterTick(s, d, e, now, h).w == s.w
  {
  }

  /** Keep, Disarm and MarkRolledBack end the window for good: until the next Apply, another of them or a manual
      rollback nothing at all changes in the Manager, and no closure is claimed and no reboot made, whatever was
      under way. MarkRolledBack does so for a window that is pending or shows a failed rollback, and nothing else. */
  lemma {:induction false} ClosedForGood(d: Durations, run: seq<Step>, t: Step, more: seq<Step>)
    requires IsRun(d, run) && Closes(t) && Enabled(Result(d, run), t) && IsRun(d, run + [t] + more)
    requires forall x | x in more :: Bystander(x)
    requires t.DoMarkRolledBack? ==> Result(d, run).w.pending || Result(d, run).w.phase == RollbackFailed
    ensures var s, u := Result(d, run), Result(d, run + [t] + more);
            && !u.w.pending && u.w.epoch == s.w.epoch + 1 && u.log == s.log && Deserted(u)
            && u.w.phase == (if t.DoConfirm? then Committed else if t.DoDisarm? then Idle else RolledBack)
            && (t.DoMarkRolledBack? ==> u.w.rolledBack && u.w.rollbackDone && !u.w.rollbackFailed)
    decreases |more|
  {
    var s, ends := Result(d, run), run + [t];
    assert ends[..|ends| - 1] == run;
    if more == [] {
      assert ends + more == ends;
      EveryRunKeepsInv(d, run);
      JustClosed(s, d, t);
    } else {
      var less, x := more[..|more| - 1], more[|more| - 1];
      assert (ends + more)[..|ends + more| - 1] == ends + less && x in more;
      hide After, Enabled, Deserted;
      ClosedForGood(d, run, t, less);
      EveryRunKeepsInv(d, ends + less);
      HasPcs(Result(d, ends + less));
      NothingIsLeft(Result(d, ends + less), d, x);
    }
  }

  lemma HasPcs(s: System)
    requires Inv(s)
    ensures PcsInv(s)
  {
  }

  lemma JustClosed(s: System, d: Durations, t: Step)
    requires Inv(s) && Closes(t) && (t.DoMarkRolledBack? ==> s.w.pending || s.w.phase == RollbackFailed)
    ensures var u := After(s, d, t);
            && !u.w.pending && u.w.epoch == s.w.epoch + 1 && u.log == s.log && Deserted(u)
            && u.w.phase == (if t.DoConfirm? then Committed else if t.DoDisarm? then Idle else RolledBack)
            && (t.DoMarkRolledBack? ==> u.w.rolledBack && u.w.rollbackDone && !u.w.rollbackFailed)
  {
    assert PcsInv(s);
    hide Inv;
  }

  /** A manual rollback after MarkRolledBack has nothing left to run: it answers that the window is rolled back. */
  lemma RolledBackOutside(s: System, d: Durations, id: nat, only: bool, e: nat)
    requires s.w.rollbackDone && !s.w.rollbackFailed && Enabled(s, DoBegin(id, only, e))
    ensures var u := After(s, d, DoBegin(id, only, e));
            u.log == s.log && u.pcs == s.pcs && (only && e != s.w.epoch ==> u == s) &&
            (!(only && e != s.w.epoch) ==> u.w == s.w.(dispatched := true, pending := false, phase := RolledBack,
                                                       rolledBack := true))
  {
  }

  /** A window with no pending rollback to record and no failed one to correct is left alone by MarkRolledBack. */
  lemma NothingToMark(s: System, d: Durations)
    requires !s.w.pending && s.w.phase != RollbackFailed
    ensures After(s, d, DoMarkRolledBack) == s
  {
  }

  // ---- A failure that does not show ---------------------------------------------------------------

  /** While the last thing recorded of a window is a failed rollback, it comes to show "rolled back" exactly when a tick
      gives the rollback verdict: nobody claims the closure then, and the failure is hidden until a reboot. */
  lemma FailureIsHiddenIff(d: Durations, run: seq<Step>, t: Step)
    requires IsRun(d, run) && ArmedNow(d, run) && Result(d, run).w.hasRollback && Enabled(Result(d, run), t)
    requires LastOf(Result(d, run).log, Result(d, run).w.epoch) == Some(RecordedFailed(Result(d, run).w.epoch))
    requires !t.DoArm? && !Closes(t) && After(Result(d, run), d, t).log == Result(d, run).log
    ensures var s, u := Result(d, run), After(Result(d, run), d, t);
            u.w.phase == RolledBack <==>
            u.w.phase != Reboot && (s.w.phase == RolledBack || (t.DoTick? && u.acts == s.acts + [ActRollback]))
  {
    var s := Result(d, run);
    EveryRunSays(d, run);
    EveryRunKeepsInv(d, run);
    HasPcs(s);
    hide Inv, IsRun, Result, ArmedNow, LastOf;
    FailureStays(s, d, t);
  }

  lemma FailureStays(s: System, d: Durations, t: Step)
    requires FlagsSay(s) && PcsInv(s) && s.w.hasRollback && s.w.rollbackFailed && s.w.dispatched && !s.w.rollbackDone
    requires Enabled(s, t) && !t.DoArm? && !Closes(t) && After(s, d, t).log == s.log
    ensures var u := After(s, d, t);
            u.w.phase == RolledBack <==>
            u.w.phase != Reboot && (s.w.phase == RolledBack || (t.DoTick? && u.acts == s.acts + [ActRollback]))
  {
    hide FlagsSay, PcsInv;
    if t.DoTick? {
      TickFields(s, d, t.run, s.pcs[Run(t.run)].at, t.h);
      var (w, a) := Tick(s.w, d, s.pcs[Run(t.run)].at, t.h);
      var u := After(s, d, t);
      if s.w.pending {
        TickShows(s.w, d, s.pcs[Run(t.run)].at, t.h);
        assert u.acts[|s.acts|] == a && (s.acts + [ActRollback])[|s.acts|] == ActRollback;
      } else {
        assert |u.acts| != |s.acts + [ActRollback]|;
      }
      hide Tick, AfterTick;
    } else {
      assert After(s, d, t).w.phase == s.w.phase;
    }
  }

  /** One round of the goroutine: it looks, reads the clock, probes and ticks. */
  lemma Round(run: seq<Step>, s: System, c: Timers, e: nat, now: int, h: Health) returns (u: System)
    requires Leads(run, s, c) && At(s, Run(e), Watching) && Live(s, e) && s.w.pending
    ensures Leads(run + Ask(e, now) + [DoTick(e, h)], u, Turn(c, DoProbe(e, now)))
    ensures var (w, a) := Tick(s.w, DEFAULTS, now, h);
            && u.w == w && u.live && u.log == s.log
            && u.pcs == if a == ActDone then s.pcs - {Run(e)}
                        else s.pcs[Run(e) := if a == ActNone then Watching
                                             else if a == ActRollback then GotRollback else GotReboot]
  {
    Asked(run, s, c, e, now);
    var v := s.(pcs := s.pcs[Run(e) := Probing(now)]);
    hide Leads;
    Step1(run + Ask(e, now), v, Turn(c, DoProbe(e, now)), DoTick(e, h));
    u := After(v, DEFAULTS, DoTick(e, h));
    assert v.pcs - {Run(e)} == s.pcs - {Run(e)};
    hide Tick;
  }

  const TESTED := Arm(Fresh, DEFAULTS, 1000, true, true).(phase := Degraded, bad := true, badSince := 21000,
                                                          lastAt := 21000)
  const FAILED_BY_HAND := TESTED.(dispatched := true, rollbackFailed := true, phase := RollbackFailed)
  const MANUAL := [DoBegin(7, false, 0), DoReturn(Call(7), Failed), DoEnd(7), DoMarkFailed(7)]
  const ALONE: map<Actor, Pc> := map[Run(1) := Watching]

  function Bad(): seq<Step> { [DoArm(1000, true, true)] + Ask(1, 21000) + [DoTick(1, Down)] }

  /** The new configuration is bad, a manual rollback fails, connectivity stays bad for RollbackAfter and then comes
      back of itself. */
  function Hidden(): seq<Step> {
    Bad() + MANUAL + Ask(1, 36000) + [DoTick(1, Down)] + Ask(1, 51000) + [DoTick(1, Down)] +
    Ask(1, 66000) + [DoTick(1, Down)] + [DoClaim(1)] + Ask(1, 81000) + [DoTick(1, Up)]
  }

  lemma TurnsBad() returns (s: System)
    ensures Leads(Bad(), s, AT21)
    ensures s.w == TESTED && s.live && s.log == [] && s.pcs == ALONE
  {
    var a := DoArm(1000, true, true);
    var t0, c1 := Timers(0, map[], 0, true), Timers(1000, map[1 := 21000], 1, true);
    assert Leads([], Start, t0);
    Step1([], Start, t0, a);
    var s0 := After(Start, DEFAULTS, a);
    assert [] + [a] == [a] && t0.due[1 := 21000] == c1.due && s0.pcs == ALONE;
    hide Leads;
    s := Round([a], s0, c1, 1, 21000, Down);
    assert c1.due[1 := 36000] == map[1 := 36000] && ALONE[Run(1) := Watching] == ALONE;
  }

  /** What the goroutine and the manual call see; the rest of the state does not matter here. */
  predicate Sees(s: System, w: Window, pcs: map<Actor, Pc>, log: seq<Event>) {
    s.w == w && s.live && s.pcs == pcs && s.log == log
  }

  const CLAIMED_BY_HAND := TESTED.(dispatched := true)

  lemma Begins(s: System)
    requires Sees(s, TESTED, ALONE, [])
    ensures Enabled(s, MANUAL[0])
    ensures Sees(After(s, DEFAULTS, MANUAL[0]), CLAIMED_BY_HAND, ALONE[Call(7) := Calling(1)], [Claimed(1, false)])
  {
    assert [] + [Claimed(1, false)] == [Claimed(1, false)];
  }

  lemma Returns(s: System)
    requires Sees(s, CLAIMED_BY_HAND, ALONE[Call(7) := Calling(1)], [Claimed(1, false)])
    ensures Enabled(s, MANUAL[1])
    ensures Sees(After(s, DEFAULTS, MANUAL[1]), CLAIMED_BY_HAND, ALONE[Call(7) := Returned(1, Failed)],
                 [Claimed(1, false)])
  {
  }

  lemma Ends(s: System)
    requires Sees(s, CLAIMED_BY_HAND, ALONE[Call(7) := Returned(1, Failed)], [Claimed(1, false)])
    ensures Enabled(s, MANUAL[2])
    ensures Sees(After(s, DEFAULTS, MANUAL[2]), CLAIMED_BY_HAND, ALONE[Call(7) := Failing(1)], [Claimed(1, false)])
  {
  }

  lemma Marks(s: System)
    requires Sees(s, CLAIMED_BY_HAND, ALONE[Call(7) := Failing(1)], [Claimed(1, false)])
    ensures Enabled(s, MANUAL[3])
    ensures Sees(After(s, DEFAULTS, MANUAL[3]), FAILED_BY_HAND, ALONE, [Claimed(1, false), RecordedFailed(1)])
  {
    assert ALONE[Call(7) := Failing(1)] - {Call(7)} == ALONE;
    assert [Claimed(1, false)] + [RecordedFailed(1)] == [Claimed(1, false), RecordedFailed(1)];
  }

  const AT21 := Timers(21000, map[1 := 36000], 1, true)

  lemma ManualTakesNoTime()
    ensures forall i | 0 <= i < 4 :: Turn(AT21, MANUAL[i]) == AT21
  {
  }

  lemma ClaimsByHand() returns (s: System)
    ensures Leads(Bad() + MANUAL[..2], s, AT21)
    ensures Sees(s, CLAIMED_BY_HAND, ALONE[Call(7) := Returned(1, Failed)], [Claimed(1, false)])
  {
    var s0 := TurnsBad();
    ManualTakesNoTime();
    assert Sees(s0, TESTED, ALONE, []);
    hide Leads, Bad, Sees, After, Enabled, Turn;
    Begins(s0);
    Step1(Bad(), s0, AT21, MANUAL[0]);
    var s1 := After(s0, DEFAULTS, MANUAL[0]);
    Returns(s1);
    Step1(Bad() + [MANUAL[0]], s1, AT21, MANUAL[1]);
    s := After(s1, DEFAULTS, MANUAL[1]);
    assert Bad() + [MANUAL[0]] + [MANUAL[1]] == Bad() + MANUAL[..2];
  }

  lemma FailsByHand() returns (s: System)
    ensures Leads(Bad() + MANUAL, s, AT21)
    ensures Sees(s, FAILED_BY_HAND, ALONE, [Claimed(1, false), RecordedFailed(1)])
  {
    var run := Bad() + MANUAL[..2];
    var s2 := ClaimsByHand();
    ManualTakesNoTime();
    hide Leads, Bad, Sees, After, Enabled, Turn;
    Ends(s2);
    Step1(run, s2, AT21, MANUAL[2]);
    var s3 := After(s2, DEFAULTS, MANUAL[2]);
    Marks(s3);
    Step1(run + [MANUAL[2]], s3, AT21, MANUAL[3]);
    s := After(s3, DEFAULTS, MANUAL[3]);
    assert run + [MANUAL[2]] + [MANUAL[3]] == Bad() + MANUAL;
  }

  const RECORDS := [Claimed(1, false), RecordedFailed(1)]

  /** A bad tick before RollbackAfter changes nothing but the time of the last tick. */
  lemma StaysFailed(run: seq<Step>, s: System, c: Timers, now: int) returns (u: System)
    requires Leads(run, s, c) && Sees(s, FAILED_BY_HAND.(lastAt := s.w.lastAt), ALONE, RECORDS) && now < 66000
    ensures Leads(run + Ask(1, now) + [DoTick(1, Down)], u, Turn(c, DoProbe(1, now)))
    ensures Sees(u, FAILED_BY_HAND.(lastAt := now), ALONE, RECORDS)
  {
    hide Leads, Ask;
    u := Round(run, s, c, 1, now, Down);
    assert Tick(s.w, DEFAULTS, now, Down) == (FAILED_BY_HAND.(lastAt := now), ActNone);
    assert ALONE[Run(1) := Watching] == ALONE;
  }

  const VERDICT := FAILED_BY_HAND.(rolledBack := true, phase := RolledBack, lastAt := 66000)

  lemma VerdictHides(run: seq<Step>, s: System, c: Timers) returns (u: System)
    requires Leads(run, s, c) && Sees(s, FAILED_BY_HAND.(lastAt := 51000), ALONE, RECORDS)
    ensures Leads(run + Ask(1, 66000) + [DoTick(1, Down)] + [DoClaim(1)], u, Turn(c, DoProbe(1, 66000)))
    ensures Sees(u, VERDICT, ALONE, RECORDS)
  {
    hide Leads, Ask;
    var v := Round(run, s, c, 1, 66000, Down);
    assert Tick(s.w, DEFAULTS, 66000, Down) == (VERDICT, ActRollback);
    Step1(run + Ask(1, 66000) + [DoTick(1, Down)], v, Turn(c, DoProbe(1, 66000)), DoClaim(1));
    u := After(v, DEFAULTS, DoClaim(1));
    assert ALONE[Run(1) := GotRollback][Run(1) := Watching] == ALONE;
  }

  lemma Recovers(run: seq<Step>, s: System, c: Timers) returns (u: System)
    requires Leads(run, s, c) && Sees(s, VERDICT, ALONE, RECORDS)
    ensures Leads(run + Ask(1, 81000) + [DoTick(1, Up)], u, Turn(c, DoProbe(1, 81000)))
    ensures u.w.phase == RolledBack && !u.w.pending && u.log == RECORDS
  {
    hide Leads, Ask;
    u := Round(run, s, c, 1, 81000, Up);
  }

  /** The only rollback of the window failed, and it ends showing "rolled back". */
  lemma FailedRollbackShowsRolledBack()
    ensures IsRun(DEFAULTS, Hidden()) && InTime(Hidden())
    ensures var s := Result(DEFAULTS, Hidden());
            s.w.phase == RolledBack && !s.w.pending && s.log == [Claimed(1, false), RecordedFailed(1)]
  {
    var s0 := FailsByHand();
    var r0, c0 := Bad() + MANUAL, AT21;
    var c1, c2 := Turn(c0, DoProbe(1, 36000)), Turn(Turn(c0, DoProbe(1, 36000)), DoProbe(1, 51000));
    var c3 := Turn(c2, DoProbe(1, 66000));
    assert Turn(c3, DoProbe(1, 81000)).kept;
    assert Sees(s0, FAILED_BY_HAND.(lastAt := s0.w.lastAt), ALONE, RECORDS);
    hide Ask, Bad, Turn;
    var r1, r2 := r0 + Ask(1, 36000) + [DoTick(1, Down)],
                  r0 + Ask(1, 36000) + [DoTick(1, Down)] + Ask(1, 51000) + [DoTick(1, Down)];
    var s1 := StaysFailed(r0, s0, c0, 36000);
    var s2 := StaysFailed(r1, s1, c1, 51000);
    var s3 := VerdictHides(r2, s2, c2);
    var s4 := Recovers(r2 + Ask(1, 66000) + [DoTick(1, Down)] + [DoClaim(1)], s3, c3);
  }
}
