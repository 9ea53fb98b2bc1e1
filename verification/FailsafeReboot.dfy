/** The last resort of internal/failsafe/failsafe.go against its promise that the previous configuration is
    tried first: when a window armed with a rollback closure reboots, was that closure ever claimed? Not
    always, because a superseded goroutine can be handed the window's one ActRollback. */
module FailsafeReboot {
  import opened Failsafe
  import opened FailsafeRuns

  predicate EverClaimed(log: seq<Event>, epoch: nat) { Claimed(epoch, true) in log || Claimed(epoch, false) in log }

  /** The goroutine armed with this epoch was itself handed the window's ActRollback. */
  predicate Took(s: System, epoch: nat) {
    exists i :: 0 <= i < |s.acts| && i < |s.takers| && s.acts[i] == ActRollback && s.takers[i] == epoch
  }

  /** While the window's own goroutine lives: a dispatched closure has been claimed, a handed rollback is
      dispatched or about to be, and nothing else makes the goroutine claim. */
  ghost predicate ClaimInv(s: System) {
    var e := s.w.epoch;
    Run(e) in s.pcs ==>
      && (s.w.hasRollback && s.w.dispatched ==> EverClaimed(s.log, e))
      && (s.w.hasRollback && Took(s, e) ==> s.w.dispatched || s.pcs[Run(e)] == GotRollback)
      && (s.pcs[Run(e)] == GotRollback ==> Took(s, e))
      && (Claimed(e, true) in s.log ==> Took(s, e))
  }

  ghost predicate TakersInv(s: System) { |s.takers| == |s.acts| }

  // ---- Every step keeps it ------------------------------------------------------------------------

  lemma TookMore(s: System, s': System, a: Action, run: nat, epoch: nat)
    requires TakersInv(s) && s'.acts == s.acts + [a] && s'.takers == s.takers + [run]
    ensures TakersInv(s') && (Took(s', epoch) <==> Took(s, epoch) || (a == ActRollback && run == epoch))
  {
    if Took(s, epoch) {
      var i :| 0 <= i < |s.acts| && s.acts[i] == ActRollback && s.takers[i] == epoch;
      assert s'.acts[i] == ActRollback && s'.takers[i] == epoch;
    }
    assert s'.acts[|s.acts|] == a && s'.takers[|s.acts|] == run;
  }

  lemma TickRecords(s: System, d: Durations, run: nat, now: int, h: Health)
    requires Run(run) in s.pcs
    ensures var a, s' := Tick(s.w, d, now, h).1, AfterTick(s, d, run, now, h);
            && s'.log == s.log && s'.w.epoch == s.w.epoch && s'.w.dispatched == s.w.dispatched
            && s'.w.hasRollback == s.w.hasRollback
            && (if s.w.pending then s'.acts == s.acts + [a] && s'.takers == s.takers + [run]
                else s'.acts == s.acts && s'.takers == s.takers && a == ActNone)
            && s'.pcs == (if a == ActDone then s.pcs - {Run(run)}
                          else s.pcs[Run(run) := if a == ActNone then Watching
                                                 else if a == ActRollback then GotRollback else GotReboot])
  {
    TickKeepsWindow(s.w, d, now, h);
    hide Tick;
  }

  lemma TickKeepsWindow(w: Window, d: Durations, now: int, h: Health)
    ensures Tick(w, d, now, h).0.hasRollback == w.hasRollback && (!w.pending ==> Tick(w, d, now, h).1 == ActNone)
  {
  }

  lemma TickKeepsClaims(s: System, d: Durations, run: nat, now: int, h: Health)
    requires ClaimInv(s) && TakersInv(s) && Run(run) in s.pcs && s.pcs[Run(run)].Probing?
    ensures ClaimInv(AfterTick(s, d, run, now, h)) && TakersInv(AfterTick(s, d, run, now, h))
  {
    TickRecords(s, d, run, now, h);
    var s' := AfterTick(s, d, run, now, h);
    hide Tick, AfterTick, Took, EverClaimed;
    if s.w.pending {
      TookMore(s, s', Tick(s.w, d, now, h).1, run, s.w.epoch);
    } else {
      SameTaken(s, s', s.w.epoch);
    }
  }

  lemma SameTaken(s: System, s': System, epoch: nat)
    requires s'.acts == s.acts && s'.takers == s.takers
    ensures Took(s', epoch) == Took(s, epoch)
  {
  }

  /** A step that leaves the acts and takers alone, and the window's dispatch too. */
  lemma QuietKeepsClaims(s: System, s': System)
    requires ClaimInv(s) && s'.acts == s.acts && s'.takers == s.takers
    requires s'.w.epoch == s.w.epoch && s'.w.hasRollback == s.w.hasRollback && s'.w.dispatched == s.w.dispatched
    requires forall e: nat :: (Claimed(e, true) in s'.log <==> Claimed(e, true) in s.log) &&
                              (Claimed(e, false) in s'.log <==> Claimed(e, false) in s.log)
    requires Run(s.w.epoch) in s'.pcs ==>
               Run(s.w.epoch) in s.pcs &&
               (s'.pcs[Run(s.w.epoch)] == GotRollback <==> s.pcs[Run(s.w.epoch)] == GotRollback)
    ensures ClaimInv(s')
  {
    SameTaken(s, s', s.w.epoch);
    hide Took;
  }

  lemma ClaimKeepsClaims(s: System, e: nat)
    requires ClaimInv(s) && At(s, Run(e), GotRollback)
    ensures ClaimInv(AfterClaim(s, e))
  {
    SameTaken(s, AfterClaim(s, e), s.w.epoch);
    hide Took;
  }

  lemma BeginKeepsClaims(s: System, id: nat, only: bool, window: nat)
    requires ClaimInv(s) && Inv(s) && Call(id) !in s.pcs
    ensures ClaimInv(AfterBegin(s, id, only, window))
  {
    SameTaken(s, AfterBegin(s, id, only, window), s.w.epoch);
    assert OwnRunInv(s);
    hide Took, Inv;
  }

  lemma NewEpochHasNoRun(s: System, s': System)
    requires PcsInv(s) && s'.pcs == s.pcs && s'.w.epoch > s.w.epoch
    ensures ClaimInv(s')
  {
    assert Run(s'.w.epoch) !in s.pcs;
  }

  lemma ArmKeepsClaims(s: System, d: Durations, now: int, rb: bool, rs: bool)
    requires Inv(s)
    ensures ClaimInv(After(s, d, DoArm(now, rb, rs)))
  {
    assert LogInv(s);
    hide Inv, LogInv;
    assert forall i | 0 <= i < |s.log| :: s.log[i].epoch <= s.w.epoch by { LogIsOld(s); }
  }

  lemma LogIsOld(s: System)
    requires LogInv(s)
    ensures forall i | 0 <= i < |s.log| :: s.log[i].epoch <= s.w.epoch
  {
  }

  lemma MarkKeepsClaims(s: System, e: nat, o: Outcome)
    requires ClaimInv(s) && Run(e) in s.pcs && s.pcs[Run(e)].Returned?
    ensures ClaimInv(AfterMark(s, e, o))
  {
    MarkFacts(s, e, o);
    hide ClaimInv, Marked;
    SameClaimed(s.log, Marked(s, e, o).log);
    QuietKeepsClaims(s, AfterMark(s, e, o));
  }

  predicate OneRecord(log: seq<Event>, more: seq<Event>) {
    more == log || (|more| == |log| + 1 && more == log + [more[|log|]] && !more[|log|].Claimed?)
  }

  lemma MarkFacts(s: System, e: nat, o: Outcome)
    ensures var t := Marked(s, e, o);
            && t.w.hasRollback == s.w.hasRollback && t.w.dispatched == s.w.dispatched && t.w.epoch == s.w.epoch
            && t.acts == s.acts && t.takers == s.takers && t.pcs == s.pcs && OneRecord(s.log, t.log)
  {
    hide MarkedWindow, OneRecord;
    OneMoreRecord(s.log, MarkRecord(e, o));
  }

  lemma OneMoreRecord(log: seq<Event>, ev: Event)
    requires !ev.Claimed?
    ensures OneRecord(log, log) && OneRecord(log, log + [ev])
  {
  }

  /** A record that is no claim adds none. */
  lemma SameClaimed(log: seq<Event>, more: seq<Event>)
    requires OneRecord(log, more)
    ensures forall e: nat :: (Claimed(e, true) in more <==> Claimed(e, true) in log) &&
                             (Claimed(e, false) in more <==> Claimed(e, false) in log)
  {
    if more != log {
      assert forall x :: x in more <==> x in log || x == more[|log|];
    }
  }

  lemma CallKeepsClaims(s: System, d: Durations, t: Step)
    requires ClaimInv(s) && Enabled(s, t) && (t.DoEnd? || t.DoMarkFailed?)
    ensures ClaimInv(After(s, d, t))
  {
    CallFacts(s, d, t);
    hide ClaimInv, After;
    SameClaimed(s.log, After(s, d, t).log);
    QuietKeepsClaims(s, After(s, d, t));
  }

  lemma CallFacts(s: System, d: Durations, t: Step)
    requires Enabled(s, t) && (t.DoEnd? || t.DoMarkFailed?)
    ensures var u := After(s, d, t);
            && u.w.hasRollback == s.w.hasRollback && u.w.dispatched == s.w.dispatched && u.w.epoch == s.w.epoch
            && u.acts == s.acts && u.takers == s.takers && OneRecord(s.log, u.log)
            && (Run(s.w.epoch) in u.pcs <==> Run(s.w.epoch) in s.pcs)
            && (Run(s.w.epoch) in u.pcs ==> u.pcs[Run(s.w.epoch)] == s.pcs[Run(s.w.epoch)])
  {
    if t.DoEnd? {
      EndFacts(s, t.id, s.pcs[Call(t.id)].window, s.pcs[Call(t.id)].o);
    } else {
      FailFacts(s, t.id, s.pcs[Call(t.id)].window);
    }
    hide AfterEnd, AfterMarkFailed, OneRecord;
  }

  ghost predicate OnlyRecords(s: System, u: System, a: Actor) {
    && u.w.hasRollback == s.w.hasRollback && u.w.dispatched == s.w.dispatched && u.w.epoch == s.w.epoch
    && u.acts == s.acts && u.takers == s.takers && OneRecord(s.log, u.log)
    && forall x | x != a :: (x in u.pcs <==> x in s.pcs) && (x in u.pcs ==> u.pcs[x] == s.pcs[x])
  }

  lemma EndFacts(s: System, id: nat, window: nat, o: Outcome)
    ensures OnlyRecords(s, AfterEnd(s, id, window, o), Call(id))
  {
    OneMoreRecord(s.log, RecordedDone(window));
    hide OneRecord;
  }

  lemma FailFacts(s: System, id: nat, window: nat)
    ensures OnlyRecords(s, AfterMarkFailed(s, id, window), Call(id))
  {
    OneMoreRecord(s.log, RecordedFailed(window));
    hide OneRecord;
  }

  lemma RunKeepsClaims(s: System, d: Durations, t: Step)
    requires ClaimInv(s) && Enabled(s, t)
    requires t.DoReboot? || t.DoReturn? || t.DoLook? || t.DoProbe? || t.DoQuit?
    ensures ClaimInv(After(s, d, t))
  {
    RunFacts(s, d, t);
    hide Took, ClaimInv, EverClaimed, After;
    QuietKeepsClaims(s, After(s, d, t));
  }

  lemma RunFacts(s: System, d: Durations, t: Step)
    requires Enabled(s, t) && (t.DoReboot? || t.DoReturn? || t.DoLook? || t.DoProbe? || t.DoQuit?)
    ensures var u, me := After(s, d, t), Run(s.w.epoch);
            && u.w == s.w && u.acts == s.acts && u.takers == s.takers
            && (u.log == s.log || (t.DoReboot? && u.log == s.log + [Rebooted(t.run)]))
            && (me in u.pcs ==> me in s.pcs && (u.pcs[me] == GotRollback <==> s.pcs[me] == GotRollback))
  {
  }

  lemma StepKeepsClaims(s: System, d: Durations, t: Step)
    requires ClaimInv(s) && TakersInv(s) && Inv(s) && Enabled(s, t)
    ensures ClaimInv(After(s, d, t)) && TakersInv(After(s, d, t))
  {
    assert PcsInv(s);
    hide Inv, ClaimInv, Took, AfterTick, AfterClaim, AfterReboot, AfterMark, AfterBegin, AfterEnd, AfterMarkFailed;
    match t
    case DoArm(now, rb, rs) => ArmKeepsClaims(s, d, now, rb, rs);
    case DoTick(e, h) => TickKeepsClaims(s, d, e, s.pcs[Run(e)].at, h);
    case DoClaim(e) => ClaimKeepsClaims(s, e);
    case DoBegin(id, only, e) => BeginKeepsClaims(s, id, only, e);
    case DoConfirm => NewEpochHasNoRun(s, After(s, d, t));
    case DoDisarm => NewEpochHasNoRun(s, After(s, d, t));
    case DoMarkRolledBack =>
      if After(s, d, t) != s { NewEpochHasNoRun(s, After(s, d, t)); }
    case DoMark(e) => MarkKeepsClaims(s, e, s.pcs[Run(e)].o);
    case DoEnd(_) => CallKeepsClaims(s, d, t);
    case DoMarkFailed(_) => CallKeepsClaims(s, d, t);
    case _ => RunKeepsClaims(s, d, t);
  }

  lemma {:induction false} EveryRunKeepsClaims(d: Durations, run: seq<Step>)
    requires IsRun(d, run)
    ensures ClaimInv(Result(d, run)) && TakersInv(Result(d, run)) && Inv(Result(d, run))
  {
    hide ClaimInv, TakersInv, Inv, After, Enabled;
    EveryRunKeepsInv(d, run);
    if run == [] {
      StartKeepsClaims(d);
    } else {
      var before := run[..|run| - 1];
      EveryRunKeepsClaims(d, before);
      StepKeepsClaims(Result(d, before), d, run[|run| - 1]);
    }
  }

  lemma StartKeepsClaims(d: Durations)
    ensures ClaimInv(Start) && TakersInv(Start)
  {
  }

  // ---- When a reboot follows a rollback -----------------------------------------------------------

  /** The reboot of a window that was armed with a closure. */
  predicate Reboots(s: System, d: Durations, t: Step) {
    Enabled(s, t) && t.DoReboot? && s.w.hasRollback && s.w.canReboot && s.w.epoch == t.run
  }

  lemma RebootIsRecorded(s: System, d: Durations, t: Step)
    requires Enabled(s, t) && s.w.hasRollback
    ensures Reboots(s, d, t) <==> t.DoReboot? && After(s, d, t).log == s.log + [Rebooted(s.w.epoch)]
  {
    if t.DoReboot? && After(s, d, t).log == s.log + [Rebooted(s.w.epoch)] {
      assert |After(s, d, t).log| == |s.log| + 1;
    }
  }

  /** In every run, when a window that was armed with a closure reboots: the automatic path claims only for the
      window's own goroutine handed the rollback, and unless a manual call was first it does claim then. */
  lemma AutoClaimedIff(d: Durations, run: seq<Step>, t: Step)
    requires IsRun(d, run) && Reboots(Result(d, run), d, t)
    ensures var s := Result(d, run);
            && (Claimed(t.run, true) in s.log ==> Took(s, t.run))
            && (Claimed(t.run, false) !in s.log ==> (Claimed(t.run, true) in s.log <==> Took(s, t.run)))
  {
    EveryRunKeepsClaims(d, run);
  }

  /** So the closure was claimed before the reboot exactly when the window's own goroutine was handed the
      rollback, or a manual rollback had claimed it. */
  lemma RebootFollowsRollbackIff(d: Durations, run: seq<Step>, t: Step)
    requires IsRun(d, run) && Reboots(Result(d, run), d, t)
    ensures var s := Result(d, run);
            EverClaimed(s.log, t.run) <==> Took(s, t.run) || Claimed(t.run, false) in s.log
  {
    AutoClaimedIff(d, run, t);
    hide Took, Reboots;
  }

  lemma LogGrowsByOne(s: System, d: Durations, t: Step)
    requires Enabled(s, t)
    ensures var log := After(s, d, t).log;
            log == s.log || (|log| == |s.log| + 1 && log[..|s.log|] == s.log &&
                             (log[|s.log|].Rebooted? ==>
                                t == DoReboot(log[|s.log|].epoch) && s.w.epoch == t.run && s.w.canReboot))
  {
    match t
    case DoTick(e, h) => TickRecords(s, d, e, s.pcs[Run(e)].at, h);
    case DoMark(e) =>
      MarkFacts(s, e, s.pcs[Run(e)].o);
      MarkIsNoReboot(s, e, s.pcs[Run(e)].o);
    case DoEnd(_) => CallFacts(s, d, t);
    case DoMarkFailed(_) => CallFacts(s, d, t);
    case DoReboot(_) =>
    case _ => OthersLog(s, d, t);
  }

  lemma MarkIsNoReboot(s: System, e: nat, o: Outcome)
    ensures Marked(s, e, o).log != s.log ==> !Marked(s, e, o).log[|s.log|].Rebooted?
  {
  }

  lemma OthersLog(s: System, d: Durations, t: Step)
    requires Enabled(s, t) && !t.DoTick? && !t.DoMark? && !t.DoEnd? && !t.DoMarkFailed? && !t.DoReboot?
    ensures var log := After(s, d, t).log;
            log == s.log || (|log| == |s.log| + 1 && log[..|s.log|] == s.log && !log[|s.log|].Rebooted?)
  {
  }

  /** The same, read off the log of any run: the step that recorded a reboot, and what stood in the log
      before it. */
  lemma {:induction false} EveryRecordedReboot(d: Durations, run: seq<Step>, i: nat) returns (k: nat)
    requires IsRun(d, run) && i < |Result(d, run).log| && Result(d, run).log[i].Rebooted?
    ensures k < |run| && IsRun(d, run[..k])
    ensures var log, s := Result(d, run).log, Result(d, run[..k]);
            var e := log[i].epoch;
            && s.log == log[..i] && Enabled(s, run[k]) && run[k] == DoReboot(e)
            && (s.w.hasRollback ==>
                  (EverClaimed(log[..i], e) <==> Took(s, e) || Claimed(e, false) in log[..i]))
  {
    hide After, Enabled, Took, EverClaimed;
    var before, t := run[..|run| - 1], run[|run| - 1];
    LogGrowsByOne(Result(d, before), d, t);
    var log, old_ := Result(d, run).log, Result(d, before).log;
    if i < |old_| {
      assert log[..|old_|] == old_ && log[..i] == old_[..i];
      k := EveryRecordedReboot(d, before, i);
      assert run[..k] == before[..k];
    } else {
      k := |run| - 1;
      assert log[..i] == old_;
      if Result(d, before).w.hasRollback {
        assert Reboots(Result(d, before), d, t);
        RebootFollowsRollbackIff(d, before, t);
      }
    }
  }

  /** Every tick is the current window's own, or comes before any other tick of it. */
  predicate OwnOrFirstTicks(d: Durations, run: seq<Step>)
    requires IsRun(d, run)
  {
    run == [] ||
    var before, t := run[..|run| - 1], run[|run| - 1];
    OwnOrFirstTicks(d, before) &&
    (t.DoTick? ==> t.run == Result(d, before).w.epoch || (d.rollbackAfter > 0 && Result(d, before).ticks == []))
  }

  /** The window's rollback was handed to nobody but its own goroutine. */
  ghost predicate OwnTaker(s: System) {
    Run(s.w.epoch) in s.pcs ==>
      forall i | 0 <= i < |s.acts| && i < |s.takers| && s.acts[i] == ActRollback :: s.takers[i] == s.w.epoch
  }

  /** The first tick of a window finds nothing bad yet. */
  lemma FirstTickIsNoRollback(s: System, d: Durations, now: int, h: Health)
    requires d.rollbackAfter > 0 && !s.w.bad
    ensures Tick(s.w, d, now, h).1 != ActRollback
  {
  }

  lemma OwnTick(s: System, d: Durations, run: nat, now: int, h: Health)
    requires OwnTaker(s) && TakersInv(s) && Run(run) in s.pcs
    requires run == s.w.epoch || Tick(s.w, d, now, h).1 != ActRollback
    ensures OwnTaker(AfterTick(s, d, run, now, h))
  {
    TickRecords(s, d, run, now, h);
    hide Tick, AfterTick;
  }

  lemma OwnStep(s: System, d: Durations, t: Step)
    requires Enabled(s, t) && OwnTaker(s) && TakersInv(s) && PcsInv(s)
    requires t.DoTick? ==> t.run == s.w.epoch || (d.rollbackAfter > 0 && !s.w.bad)
    ensures OwnTaker(After(s, d, t))
  {
    var s' := After(s, d, t);
    hide PcsInv, OwnTaker;
    match t
    case DoArm(now, rb, rs) => NothingTaken(s');
    case DoTick(e, h) =>
      if d.rollbackAfter > 0 && !s.w.bad { FirstTickIsNoRollback(s, d, s.pcs[Run(e)].at, h); }
      OwnTick(s, d, e, s.pcs[Run(e)].at, h);
    case DoConfirm => NewEpoch(s, s');
    case DoDisarm => NewEpoch(s, s');
    case DoMarkRolledBack => if s' != s { NewEpoch(s, s'); }
    case _ => OwnQuiet(s, d, t);
  }

  lemma NothingTaken(s: System)
    requires s.acts == []
    ensures OwnTaker(s)
  {
  }

  lemma NewEpoch(s: System, s': System)
    requires PcsInv(s) && s'.pcs == s.pcs && s'.w.epoch > s.w.epoch
    ensures OwnTaker(s')
  {
    assert Run(s'.w.epoch) !in s.pcs;
  }

  lemma OwnQuiet(s: System, d: Durations, t: Step)
    requires Enabled(s, t) && OwnTaker(s)
    requires !t.DoArm? && !t.DoTick? && !t.DoConfirm? && !t.DoDisarm? && !t.DoMarkRolledBack?
    ensures OwnTaker(After(s, d, t))
  {
    var s' := After(s, d, t);
    assert s'.takers == s.takers && s'.acts == s.acts && s'.w.epoch == s.w.epoch;
    assert Run(s.w.epoch) in s'.pcs ==> Run(s.w.epoch) in s.pcs;
  }

  lemma {:induction false} OwnRunsKeepTaker(d: Durations, run: seq<Step>)
    requires IsRun(d, run) && OwnOrFirstTicks(d, run)
    ensures OwnTaker(Result(d, run))
  {
    hide OwnTaker, Inv, After, Enabled, ClaimInv, ClockInv;
    if run == [] {
      NothingTaken(Start);
    } else {
      var before := run[..|run| - 1];
      OwnRunsKeepTaker(d, before);
      EveryRunKeepsClaims(d, before);
      EveryRunKeepsClock(d, before);
      HasPcsInv(Result(d, before));
      OwnStep(Result(d, before), d, run[|run| - 1]);
    }
  }

  lemma HasPcsInv(s: System)
    requires Inv(s)
    ensures PcsInv(s)
  {
  }

  /** While superseded ticks come only before every other tick of a window, as they do when probes end within
      Grace, no window armed with a closure reboots before that closure has been claimed. */
  lemma EarlyTicksRollBackFirst(d: Durations, run: seq<Step>, t: Step)
    requires IsRun(d, run) && OwnOrFirstTicks(d, run) && Reboots(Result(d, run), d, t)
    ensures EverClaimed(Result(d, run).log, t.run)
  {
    RebootFollowsRollbackIff(d, run, t);
    EveryRunKeepsClaims(d, run);
    OwnRunsKeepTaker(d, run);
    VerdictsInOrder(d, run, t);
    var s := Result(d, run);
    RebootIsRecorded(s, d, t);
    assert ActRollback in s.acts;
    hide ClaimInv, Inv, Escalation, EverClaimed;
    var i :| 0 <= i < |s.acts| && s.acts[i] == ActRollback;
    assert s.takers[i] == s.w.epoch;
  }

  /** Every tick is the current window's own. */
  predicate OwnTicks(d: Durations, run: seq<Step>)
    requires IsRun(d, run)
  {
    run == [] ||
    var before, t := run[..|run| - 1], run[|run| - 1];
    OwnTicks(d, before) && (t.DoTick? ==> t.run == Result(d, before).w.epoch)
  }

  lemma {:induction false} OwnIsOwnOrFirst(d: Durations, run: seq<Step>)
    requires IsRun(d, run) && OwnTicks(d, run)
    ensures OwnOrFirstTicks(d, run)
  {
    if run != [] { OwnIsOwnOrFirst(d, run[..|run| - 1]); }
  }

  /** So it would be of every run if ticks were gated by the epoch as claims are. */
  lemma OwnTicksRollBackFirst(d: Durations, run: seq<Step>, t: Step)
    requires IsRun(d, run) && OwnTicks(d, run) && Reboots(Result(d, run), d, t)
    ensures EverClaimed(Result(d, run).log, t.run)
  {
    OwnIsOwnOrFirst(d, run);
    EarlyTicksRollBackFirst(d, run, t);
  }

  // ---- A superseded goroutine ticks at most once ---------------------------------------------------

  /** Its last look found a live context, and its tick is still to come. */
  predicate PastTheLook(s: System, e: nat) {
    Run(e) in s.pcs && (s.pcs[Run(e)] == Looking || s.pcs[Run(e)].Probing?)
  }

  function TicksOf(run: seq<Step>, e: nat): nat {
    if run == [] then 0
    else TicksOf(run[..|run| - 1], e) + if run[|run| - 1].DoTick? && run[|run| - 1].run == e then 1 else 0
  }

  function StillToTick(s: System, e: nat): nat { if PastTheLook(s, e) then 1 else 0 }

  lemma OverStep(s: System, d: Durations, t: Step, e: nat)
    requires Enabled(s, t) && e < s.w.epoch
    ensures StillToTick(After(s, d, t), e) + (if t.DoTick? && t.run == e then 1 else 0) <= StillToTick(s, e)
  {
    if t.DoTick? {
      TickRecords(s, d, t.run, s.pcs[Run(t.run)].at, t.h);
      hide AfterTick, Tick;
    } else {
      OtherRuns(s, d, t, e);
      hide After;
    }
  }

  lemma OtherRuns(s: System, d: Durations, t: Step, e: nat)
    requires Enabled(s, t) && e < s.w.epoch && !t.DoTick?
    ensures PastTheLook(After(s, d, t), e) ==> PastTheLook(s, e)
  {
    hide Tick, RollbackBegin, RollbackEnd, MarkedWindow, MarkFailed, Claim;
  }

  /** Once a window is replaced its goroutine ticks at most once more, and not at all unless it had already
      found its context live. */
  lemma {:induction false} SupersededTicksOnce(d: Durations, run: seq<Step>, more: seq<Step>, e: nat)
    requires IsRun(d, run) && IsRun(d, run + more) && e < Result(d, run).w.epoch
    ensures TicksOf(more, e) + StillToTick(Result(d, run + more), e) <= StillToTick(Result(d, run), e) <= 1
    decreases |more|
  {
    hide After, Enabled, PastTheLook;
    if more == [] {
      assert run + more == run;
    } else {
      var less, t := more[..|more| - 1], more[|more| - 1];
      assert (run + more)[..|run + more| - 1] == run + less;
      SupersededTicksOnce(d, run, less, e);
      EpochsGrow(d, run, less);
      OverStep(Result(d, run + less), d, t, e);
    }
  }
}
