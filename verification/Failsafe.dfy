/** The fail-safe window of internal/failsafe/failsafe.go: one value per state of the Manager, one
    function per critical section, and the Manager itself, whose methods each run one critical section
    and are proved to do what the function says. The theorems about interleavings are in FailsafeRuns. */
module Failsafe {

  datatype Health = Unknown | Up | Down

  datatype Action = ActNone | ActRollback | ActReboot | ActDone

  datatype Phase =
    | Idle | Armed | Unverified | Degraded | RolledBack | RollbackFailed | Committed | LiveUnsaved | Reboot

  /** The thresholds of the machine, in milliseconds. Grace and Interval only time the ticks. */
  datatype Durations = Durations(rollbackAfter: int, rebootAfter: int, keepWindow: int)

  /** What a rollback closure reported: nil, an error, or that its window had been replaced. */
  datatype Outcome = Succeeded | Failed | Superseded

  /** What the first critical section of rollbackNow decided. */
  datatype Begin = BeginSuperseded | BeginBusy | BeginFinalized | BeginRun(epoch: nat)

  /** What the second critical section of rollbackNow leaves to do. */
  datatype End = EndNothing | EndMarkFailed | EndRolledBack

  datatype Window = Window(
    pending: bool,
    phase: Phase,
    deadline: int,
    bad: bool,
    badSince: int,
    rolledBack: bool,
    dispatched: bool,
    rollbackDone: bool,
    rollbackFailed: bool,
    epoch: nat,
    lastAt: int,
    hasRollback: bool,
    canReboot: bool)

  const Fresh := Window(false, Idle, 0, false, 0, false, false, false, false, 0, 0, false, false)

  function Arm(w: Window, d: Durations, now: int, hasRollback: bool, canReboot: bool): Window {
    Window(true, Armed, now + d.keepWindow, false, 0, false, false, false, false,
           w.epoch + 1, w.lastAt, hasRollback, canReboot)
  }

  /** A tick never touches the epoch, the claim or the recorded outcome. */
  predicate SameClaims(w: Window, v: Window) {
    v.epoch == w.epoch && v.dispatched == w.dispatched &&
    v.rollbackDone == w.rollbackDone && v.rollbackFailed == w.rollbackFailed
  }

  function TickUnknown(w: Window, now: int): (v: Window)
    ensures SameClaims(w, v) && v.lastAt == now && v.bad == w.bad
  {
    var pushed := w.badSince + (now - w.lastAt);
    w.(badSince := if w.bad && w.lastAt > 0 && now > w.lastAt
                   then if pushed > now then now else pushed
                   else w.badSince,
       lastAt := now,
       phase := if !w.rolledBack && !w.rollbackFailed then Unverified else w.phase)
  }

  function TickUp(w: Window, now: int): (r: (Window, Action))
    ensures SameClaims(w, r.0) && r.0.lastAt == now && !r.0.bad
  {
    var u := w.(lastAt := now, bad := false, badSince := 0);
    if w.rolledBack then
      (u.(pending := false), ActDone)
    else if now >= w.deadline then
      (u.(pending := false, phase := if w.rollbackFailed then w.phase else LiveUnsaved), ActDone)
    else
      (u.(phase := if w.rollbackFailed then w.phase else Armed), ActNone)
  }

  function TickDown(w: Window, d: Durations, now: int): (r: (Window, Action))
    ensures SameClaims(w, r.0) && r.0.lastAt == now && r.0.bad
    ensures r.0.badSince == if w.bad then w.badSince else now
  {
    var u := w.(lastAt := now, bad := true, badSince := if w.bad then w.badSince else now);
    var badFor := now - u.badSince;
    if badFor >= d.rebootAfter && w.rolledBack then
      (u.(pending := false, phase := if w.canReboot then Reboot else w.phase), ActReboot)
    else if !w.rolledBack && badFor >= d.rollbackAfter then
      (u.(rolledBack := true, phase := RolledBack), ActRollback)
    else
      (u.(phase := if !w.rolledBack && !w.rollbackFailed then Degraded else w.phase), ActNone)
  }

  function Tick(w: Window, d: Durations, now: int, h: Health): (r: (Window, Action))
    ensures SameClaims(w, r.0)
    ensures w.pending ==> r.0.lastAt == now && (r.0.bad <==> h == Down || (h == Unknown && w.bad))
    ensures w.pending && h == Down ==> r.0.badSince == if w.bad then w.badSince else now
  {
    if !w.pending then (w, ActNone)
    else match h
      case Unknown => (TickUnknown(w, now), ActNone)
      case Up => TickUp(w, now)
      case Down => TickDown(w, d, now)
  }

  function Claim(w: Window, epoch: nat): (Window, bool) {
    if w.epoch != epoch || w.dispatched then (w, false) else (w.(dispatched := true), true)
  }

  /** A mark touches neither the epoch nor what bad time is measured by. */
  predicate SameMeasure(w: Window, v: Window) {
    v.epoch == w.epoch && v.bad == w.bad && v.badSince == w.badSince && v.lastAt == w.lastAt
  }

  function MarkDone(w: Window, epoch: nat): (v: Window)
    ensures SameMeasure(w, v) && v.dispatched == w.dispatched && v.hasRollback == w.hasRollback
  {
    if w.epoch == epoch then w.(rollbackDone := true) else w
  }

  function MarkFailed(w: Window, epoch: nat): (v: Window)
    ensures SameMeasure(w, v) && v.dispatched == w.dispatched && v.hasRollback == w.hasRollback
  {
    if w.epoch == epoch then w.(phase := RollbackFailed, rollbackFailed := true) else w
  }

  function Confirm(w: Window): Window {
    w.(pending := false, phase := Committed, epoch := w.epoch + 1)
  }

  function Disarm(w: Window): Window {
    w.(pending := false, phase := Idle, epoch := w.epoch + 1)
  }

  function MarkRolledBack(w: Window): Window {
    if !w.pending && w.phase != RollbackFailed then w
    else w.(pending := false, phase := RolledBack, rolledBack := true, rollbackDone := true,
            rollbackFailed := false, epoch := w.epoch + 1)
  }

  function RollbackBegin(w: Window, only: bool, epoch: nat): (r: (Window, Begin))
    ensures SameMeasure(w, r.0) && r.0.hasRollback == w.hasRollback
    ensures r.1.BeginRun? ==> r.1.epoch == w.epoch
  {
    if only && w.epoch != epoch then (w, BeginSuperseded)
    else if w.dispatched && !w.rollbackDone && !w.rollbackFailed then (w, BeginBusy)
    else if w.rollbackDone && !w.rollbackFailed then
      (w.(dispatched := true, pending := false, phase := RolledBack, rolledBack := true), BeginFinalized)
    else
      (w.(dispatched := true, rollbackDone := false, rollbackFailed := false), BeginRun(w.epoch))
  }

  function RollbackEnd(w: Window, epoch: nat, o: Outcome): (Window, End) {
    if w.epoch != epoch || o == Superseded then (w, EndNothing)
    else if o == Failed then (w, EndMarkFailed)
    else (w.(pending := false, phase := RolledBack, rolledBack := true, rollbackDone := true,
             rollbackFailed := false), EndRolledBack)
  }

  /** The Manager. Each method is one stretch of code under the mutex; RollbackNow, which drops the
      mutex around the closure, is the two methods RollbackNowBegin and RollbackNowEnd. */
  class Manager {
    const d: Durations
    var pending: bool
    var phase: Phase
    var deadline: int
    var bad: bool
    var badSince: int
    var rolledBack: bool
    var dispatched: bool
    var rollbackDone: bool
    var rollbackFailed: bool
    var epoch: nat
    var lastAt: int
    var hasRollback: bool
    var canReboot: bool

    function State(): Window
      reads this
    {
      Window(pending, phase, deadline, bad, badSince, rolledBack, dispatched, rollbackDone, rollbackFailed,
             epoch, lastAt, hasRollback, canReboot)
    }

    constructor (d: Durations)
      ensures State() == Fresh && this.d == d
    {
      this.d := d;
      pending, phase, deadline, bad, badSince := false, Idle, 0, false, 0;
      rolledBack, dispatched, rollbackDone, rollbackFailed := false, false, false, false;
      epoch, lastAt := 0, 0;
      hasRollback, canReboot := false, false;
    }

    method ArmHealth(now: int, withRollback: bool, withReboot: bool) returns (myEpoch: nat)
      modifies this
      ensures State() == Arm(old(State()), d, now, withRollback, withReboot)
      ensures myEpoch == epoch > old(epoch)
    {
      epoch := epoch + 1;
      myEpoch := epoch;
      pending, phase := true, Armed;
      ClearVerdicts();
      deadline := now + d.keepWindow;
      hasRollback, canReboot := withRollback, withReboot;
    }

    method ClearVerdicts()
      modifies `rolledBack, `dispatched, `rollbackDone, `rollbackFailed, `bad, `badSince
      ensures !rolledBack && !dispatched && !rollbackDone && !rollbackFailed && !bad && badSince == 0
    {
      rolledBack, dispatched, rollbackDone, rollbackFailed := false, false, false, false;
      bad, badSince := false, 0;
    }

    method TickHealth(now: int, h: Health) returns (a: Action)
      modifies this
      ensures (State(), a) == Tick(old(State()), d, now, h)
    {
      if !pending {
        return ActNone;
      }
      match h {
        case Unknown =>
          Hold(now);
          a := ActNone;
        case Up =>
          a := MeasuredUp(now);
        case Down =>
          a := MeasuredDown(now);
      }
    }

    method Hold(now: int)
      modifies this
      ensures State() == TickUnknown(old(State()), now)
    {
      var prevAt := lastAt;
      if bad && prevAt > 0 && now > prevAt {
        badSince := badSince + (now - prevAt);
        if badSince > now {
          badSince := now;
        }
      }
      lastAt := now;
      if !rolledBack && !rollbackFailed {
        phase := Unverified;
      }
    }

    method MeasuredUp(now: int) returns (a: Action)
      modifies this
      ensures (State(), a) == TickUp(old(State()), now)
    {
      lastAt, bad, badSince := now, false, 0;
      if rolledBack {
        pending := false;
        return ActDone;
      }
      if now >= deadline {
        pending := false;
        if !rollbackFailed {
          phase := LiveUnsaved;
        }
        return ActDone;
      }
      if !rollbackFailed {
        phase := Armed;
      }
      return ActNone;
    }

    method NoteBad(now: int) returns (badFor: int)
      modifies `lastAt, `bad, `badSince
      ensures lastAt == now && bad && badSince == (if old(bad) then old(badSince) else now) && badFor == now - badSince
    {
      lastAt := now;
      if !bad {
        bad, badSince := true, now;
      }
      badFor := now - badSince;
    }

    method MeasuredDown(now: int) returns (a: Action)
      modifies `lastAt, `bad, `badSince, `pending, `phase, `rolledBack
      ensures (State(), a) == TickDown(old(State()), d, now)
    {
      var badFor := NoteBad(now);
      if badFor >= d.rebootAfter && rolledBack {
        pending := false;
        if canReboot {
          phase := Reboot;
        }
        return ActReboot;
      }
      if !rolledBack && badFor >= d.rollbackAfter {
        rolledBack, phase := true, RolledBack;
        return ActRollback;
      }
      if !rolledBack && !rollbackFailed {
        phase := Degraded;
      }
      return ActNone;
    }

    method ClaimRollback(myEpoch: nat) returns (claimed: bool)
      modifies this
      ensures (State(), claimed) == Claim(old(State()), myEpoch)
    {
      if epoch != myEpoch || dispatched {
        return false;
      }
      dispatched := true;
      return true;
    }

    method MarkRollbackDone(myEpoch: nat)
      modifies this
      ensures State() == MarkDone(old(State()), myEpoch)
    {
      if epoch == myEpoch {
        rollbackDone := true;
      }
    }

    method MarkRollbackFailed(myEpoch: nat)
      modifies this
      ensures State() == MarkFailed(old(State()), myEpoch)
    {
      if epoch != myEpoch {
        return;
      }
      phase, rollbackFailed := RollbackFailed, true;
    }

    method Keep()
      modifies this
      ensures State() == Confirm(old(State()))
    {
      pending, phase := false, Committed;
      epoch := epoch + 1;
    }

    method DisarmWindow() returns (was: bool)
      modifies this
      ensures State() == Disarm(old(State())) && was == old(pending)
    {
      was := pending;
      pending, phase := false, Idle;
      epoch := epoch + 1;
    }

    method RecordRolledBack()
      modifies this
      ensures State() == MarkRolledBack(old(State()))
    {
      if !pending && phase != RollbackFailed {
        return;
      }
      pending, phase := false, RolledBack;
      rolledBack, rollbackDone, rollbackFailed := true, true, false;
      epoch := epoch + 1;
    }

    method RollbackNowBegin(only: bool, window: nat) returns (b: Begin)
      modifies this
      ensures (State(), b) == RollbackBegin(old(State()), only, window)
    {
      if only && epoch != window {
        return BeginSuperseded;
      }
      if dispatched && !rollbackDone && !rollbackFailed {
        return BeginBusy;
      }
      var priorSucceeded := rollbackDone && !rollbackFailed;
      dispatched := true;
      if !priorSucceeded {
        rollbackDone, rollbackFailed := false, false;
      }
      var ep := epoch;
      if priorSucceeded {
        pending, phase, rolledBack := false, RolledBack, true;
        return BeginFinalized;
      }
      return BeginRun(ep);
    }

    method RollbackNowEnd(ep: nat, o: Outcome) returns (e: End)
      modifies this
      ensures (State(), e) == RollbackEnd(old(State()), ep, o)
    {
      if epoch != ep || o == Superseded {
        return EndNothing;
      }
      if o == Failed {
        return EndMarkFailed;
      }
      pending, phase := false, RolledBack;
      rolledBack, rollbackDone, rollbackFailed := true, true, false;
      return EndRolledBack;
    }
  }
}
