/** The core supervisor of internal/core/singbox.go: Start, the watchdog's StartIfDesiredDead, Stop,
    Reload and Shutdown, interleaved at the points where the mutex is dropped. Processes are numbered in
    the order they are spawned. */
module Supervisor {
  import opened Wrappers

  /** What becomes of a process: running, dead, and dead with its done channel closed. */
  datatype Proc = Running | Dead | Reaped

  /** The fields under the mutex. */
  datatype Fields = Fields(cmd: Option<nat>, desired: bool, closed: bool)

  const NEW := Fields(None, false, false)

  /** startLocked, for a binary that is there or not and a spawn that works or not: the fields, and whether
      process number next was spawned. */
  function StartLocked(f: Fields, available: bool, spawns: bool, next: nat): (Fields, bool) {
    if f.closed || !available || !spawns then (f, false) else (f.(cmd := Some(next), desired := true), true)
  }

  datatype StartResult = AlreadyUp | Spawned | Refused

  function Start(f: Fields, alive: bool, available: bool, spawns: bool, next: nat): (Fields, StartResult) {
    if f.cmd.Some? && alive then (f.(desired := true), AlreadyUp)
    else
      var (g, ok) := StartLocked(f, available, spawns, next);
      (g, if ok then Spawned else Refused)
  }

  function StartIfDesiredDead(f: Fields, alive: bool, available: bool, spawns: bool, next: nat): (Fields, bool) {
    if !f.desired || alive then (f, false) else StartLocked(f, available, spawns, next)
  }

  /** Stop takes the process away and drops the intent. */
  function Taken(f: Fields): (Fields, Option<nat>) { (Fields(None, false, f.closed), f.cmd) }

  /** Shutdown's first section. */
  function Closed(f: Fields): Fields { f.(closed := true) }

  /** A Reload that failed puts the intent back. */
  function Reasserted(f: Fields): Fields { f.(desired := true) }

  class SingBox {
    var cmd: Option<nat>
    var desired: bool
    var closed: bool

    function State(): Fields
      reads this
    {
      Fields(cmd, desired, closed)
    }

    constructor ()
      ensures State() == NEW
    {
      cmd, desired, closed := None, false, false;
    }

    method Launch(available: bool, spawns: bool, next: nat) returns (spawned: bool)
      modifies this
      ensures (State(), spawned) == StartLocked(old(State()), available, spawns, next)
    {
      if closed || !available {
        return false;
      }
      if !spawns {
        return false;
      }
      cmd, desired := Some(next), true;
      return true;
    }

    /** Start. alive is aliveLocked's answer: the tracked process's done channel is still open. */
    method StartCore(alive: bool, available: bool, spawns: bool, next: nat) returns (r: StartResult)
      modifies this
      ensures (State(), r) == Start(old(State()), alive, available, spawns, next)
    {
      if cmd.Some? && alive {
        desired := true;
        return AlreadyUp;
      }
      var ok := Launch(available, spawns, next);
      return if ok then Spawned else Refused;
    }

    method WatchdogStart(alive: bool, available: bool, spawns: bool, next: nat) returns (started: bool)
      modifies this
      ensures (State(), started) == StartIfDesiredDead(old(State()), alive, available, spawns, next)
    {
      if !desired || alive {
        return false;
      }
      started := Launch(available, spawns, next);
    }

    /** Stop under the mutex: the process is handed to the caller, who ends it without the mutex. */
    method TakeForStop() returns (held: Option<nat>)
      modifies this
      ensures (State(), held) == Taken(old(State()))
    {
      desired := false;
      held := cmd;
      cmd := None;
    }

    method Close()
      modifies `closed
      ensures State() == Closed(old(State()))
    {
      closed := true;
    }

    method Reassert()
      modifies `desired
      ensures State() == Reasserted(old(State()))
    {
      desired := true;
    }
  }

  // ---- Interleavings ------------------------------------------------------------------------------

  /** What a thread was called for, which decides what follows its Stop. */
  datatype Call = StopCall | ReloadCall | ShutdownCall

  datatype Pc =
    | Closing                                // Shutdown: closed is set, Stop not yet entered
    | Ending(call: Call, held: Option<nat>)  // in Stop, without the mutex
    | Restarting                             // Reload: Stop returned nil, Start is next
    | Reasserting                            // Reload failed: desired is set again

  datatype Event = Stopped | Wanted | WatchdogSpawn | Spawn(closedBefore: bool)

  /** f, the processes ever spawned, the threads between two critical sections, whether Shutdown's Stop has
      taken the core, and the record of what happened. */
  datatype System = System(f: Fields, procs: seq<Proc>, pcs: map<nat, Pc>, shut: bool, log: seq<Event>)

  const INITIAL := System(NEW, [], map[], false, [])

  datatype Step =
    | CallStart(available: bool, spawns: bool)
    | CallWatchdog(available: bool, spawns: bool)
    | EnterStop(id: nat, call: Call)
    | EnterShutdown(id: nat)
    | FinishStop(id: nat, failed: bool)
    | Restart(id: nat, available: bool, spawns: bool)
    | Reassert(id: nat)
    | Exit(p: nat)
    | Reap(p: nat)

  /** aliveLocked. */
  predicate AliveLocked(s: System) {
    s.f.cmd.Some? && s.f.cmd.value < |s.procs| && s.procs[s.f.cmd.value] != Reaped
  }

  predicate Enabled(s: System, t: Step) {
    match t
    case EnterStop(id, call) =>
      if call == ShutdownCall then id in s.pcs && s.pcs[id] == Closing else id !in s.pcs
    case EnterShutdown(id) => id !in s.pcs
    case FinishStop(id, _) => id in s.pcs && s.pcs[id].Ending?
    case Restart(id, _, _) => id in s.pcs && s.pcs[id] == Restarting
    case Reassert(id) => id in s.pcs && s.pcs[id] == Reasserting
    case Exit(p) => p < |s.procs| && s.procs[p] == Running
    case Reap(p) => p < |s.procs| && s.procs[p] == Dead
    case _ => true
  }

  function AfterStart(s: System, available: bool, spawns: bool): (System, StartResult) {
    var (f, r) := Start(s.f, AliveLocked(s), available, spawns, |s.procs|);
    match r
    case Spawned => (System(f, s.procs + [Running], s.pcs, s.shut, s.log + [Spawn(s.f.closed), Wanted]), r)
    case AlreadyUp => (System(f, s.procs, s.pcs, s.shut, s.log + [Wanted]), r)
    case Refused => (s, r)
  }

  function AfterWatchdog(s: System, available: bool, spawns: bool): System {
    var (f, started) := StartIfDesiredDead(s.f, AliveLocked(s), available, spawns, |s.procs|);
    if started then System(f, s.procs + [Running], s.pcs, s.shut, s.log + [Spawn(s.f.closed), WatchdogSpawn]) else s
  }

  /** The process a Stop holds is dead when the Stop returns: it exited in the grace time, or was killed. */
  function Ended(procs: seq<Proc>, held: Option<nat>): seq<Proc> {
    if held.Some? && held.value < |procs| && procs[held.value] == Running then procs[held.value := Dead] else procs
  }

  function AfterFinish(s: System, id: nat, failed: bool): System
    requires id in s.pcs && s.pcs[id].Ending?
  {
    var procs := Ended(s.procs, s.pcs[id].held);
    if s.pcs[id].call == ReloadCall
    then System(s.f, procs, s.pcs[id := if failed then Reasserting else Restarting], s.shut, s.log)
    else System(s.f, procs, s.pcs - {id}, s.shut, s.log)
  }

  function After(s: System, t: Step): System
    requires Enabled(s, t)
  {
    match t
    case CallStart(available, spawns) => AfterStart(s, available, spawns).0
    case CallWatchdog(available, spawns) => AfterWatchdog(s, available, spawns)
    case EnterStop(id, call) =>
      var (f, held) := Taken(s.f);
      System(f, s.procs, s.pcs[id := Ending(call, held)], s.shut || call == ShutdownCall, s.log + [Stopped])
    case EnterShutdown(id) => System(Closed(s.f), s.procs, s.pcs[id := Closing], s.shut, s.log)
    case FinishStop(id, failed) => AfterFinish(s, id, failed)
    case Restart(id, available, spawns) =>
      var (u, r) := AfterStart(s, available, spawns);
      if r == Refused then u.(pcs := u.pcs[id := Reasserting]) else u.(pcs := u.pcs - {id})
    case Reassert(id) => System(Reasserted(s.f), s.procs, s.pcs - {id}, s.shut, s.log + [Wanted])
    case Exit(p) => s.(procs := s.procs[p := Dead])
    case Reap(p) => s.(procs := s.procs[p := Reaped])
  }

  /** A run from s: each step enabled in turn. */
  predicate IsRun(s: System, run: seq<Step>)
    decreases |run|
  {
    run == [] || (Enabled(s, run[0]) && IsRun(After(s, run[0]), run[1..]))
  }

  function Result(s: System, run: seq<Step>): System
    requires IsRun(s, run)
    decreases |run|
  {
    if run == [] then s else Result(After(s, run[0]), run[1..])
  }

  // ---- What every interleaving keeps --------------------------------------------------------------

  ghost predicate HeldBy(s: System, p: nat) {
    exists id | id in s.pcs :: s.pcs[id].Ending? && s.pcs[id].held == Some(p)
  }

  /** Every live process is the tracked one or in the hands of a Stop that has not returned. */
  ghost predicate NoOrphan(s: System) {
    forall p | 0 <= p < |s.procs| && s.procs[p] == Running :: s.f.cmd == Some(p) || HeldBy(s, p)
  }

  /** The core is wanted only if something asked for it since the last Stop took it. */
  ghost predicate Asked(log: seq<Event>) {
    exists i :: 0 <= i < |log| && log[i] == Wanted && forall j | i < j < |log| :: log[j] != Stopped
  }

  ghost predicate LogInv(s: System) {
    && (s.f.desired ==> Asked(s.log))
    && (forall i | 0 <= i < |s.log| && s.log[i].Spawn? :: !s.log[i].closedBefore)
    && (forall i | 0 <= i < |s.log| && s.log[i] == WatchdogSpawn :: Asked(s.log[..i]))
  }

  ghost predicate Inv(s: System) {
    && NoOrphan(s) && LogInv(s)
    && (s.shut ==> s.f.closed && s.f.cmd == None)
    && (forall id | id in s.pcs && (s.pcs[id] == Closing || (s.pcs[id].Ending? && s.pcs[id].call == ShutdownCall)) ::
          s.f.closed)
    && (s.f.cmd.Some? ==> s.f.cmd.value < |s.procs|)
    && (forall id | id in s.pcs && s.pcs[id].Ending? && s.pcs[id].held.Some? :: s.pcs[id].held.value < |s.procs|)
  }

  lemma Logged(log: seq<Event>, e: Event)
    ensures e == Wanted ==> Asked(log + [e])
    ensures Asked(log) && e != Stopped ==> Asked(log + [e])
  {
    if e == Wanted {
      assert (log + [e])[|log|] == Wanted;
    }
    if Asked(log) && e != Stopped {
      var i :| 0 <= i < |log| && log[i] == Wanted && forall j | i < j < |log| :: log[j] != Stopped;
      assert (log + [e])[i] == Wanted;
    }
  }

  /** Appending events keeps what the log says, given that a new spawn was before closing and a new
      watchdog spawn was asked for. */
  lemma LogGrows(s: System, s': System, e: Event)
    requires LogInv(s) && s'.log == s.log + [e]
    requires e.Spawn? ==> !e.closedBefore
    requires e == WatchdogSpawn ==> Asked(s.log)
    requires s'.f.desired ==> e == Wanted || (s.f.desired && e != Stopped)
    ensures LogInv(s')
  {
    Logged(s.log, e);
    forall i | 0 <= i < |s'.log| && s'.log[i] == WatchdogSpawn
      ensures Asked(s'.log[..i])
    {
      assert s'.log[..i] == s.log[..i];
      assert i == |s.log| ==> s.log[..i] == s.log;
    }
  }

  lemma StartKeepsInv(s: System, available: bool, spawns: bool)
    requires Inv(s)
    ensures Inv(AfterStart(s, available, spawns).0) && AfterStart(s, available, spawns).0.pcs == s.pcs
  {
    var (s', r) := AfterStart(s, available, spawns);
    if r == Spawned {
      var mid := System(s.f, s.procs, s.pcs, s.shut, s.log + [Spawn(s.f.closed)]);
      LogGrows(s, mid, Spawn(s.f.closed));
      assert s'.log == mid.log + [Wanted];
      LogGrows(mid, s', Wanted);
      SpawnKeepsNoOrphan(s, s');
    } else if r == AlreadyUp {
      LogGrows(s, s', Wanted);
      assert NoOrphan(s') by {
        assert forall p | HeldBy(s, p) :: HeldBy(s', p);
      }
    }
  }

  /** A process is spawned only when the tracked one is none or dead. */
  lemma SpawnKeepsNoOrphan(s: System, s': System)
    requires Inv(s) && !AliveLocked(s)
    requires s'.procs == s.procs + [Running] && s'.pcs == s.pcs && s'.f.cmd == Some(|s.procs|)
    ensures NoOrphan(s')
  {
  }

  lemma WatchdogKeepsInv(s: System, available: bool, spawns: bool)
    requires Inv(s)
    ensures Inv(AfterWatchdog(s, available, spawns))
  {
    var s' := AfterWatchdog(s, available, spawns);
    if s' != s {
      var mid := System(s.f, s.procs, s.pcs, s.shut, s.log + [Spawn(s.f.closed)]);
      LogGrows(s, mid, Spawn(s.f.closed));
      Logged(s.log, Spawn(s.f.closed));
      assert s'.log == mid.log + [WatchdogSpawn];
      LogGrows(mid, s', WatchdogSpawn);
      SpawnKeepsNoOrphan(s, s');
    }
  }

  lemma FinishKeepsInv(s: System, id: nat, failed: bool)
    requires Inv(s) && id in s.pcs && s.pcs[id].Ending?
    ensures Inv(AfterFinish(s, id, failed))
  {
    var s' := AfterFinish(s, id, failed);
    forall p | 0 <= p < |s'.procs| && s'.procs[p] == Running
      ensures s'.f.cmd == Some(p) || HeldBy(s', p)
    {
      if HeldBy(s, p) {
        var k :| k in s.pcs && s.pcs[k].Ending? && s.pcs[k].held == Some(p);
        assert k != id;
        assert s'.pcs[k] == s.pcs[k];
      }
    }
  }

  lemma EnterStopKeepsInv(s: System, id: nat, call: Call)
    requires Inv(s) && Enabled(s, EnterStop(id, call))
    ensures Inv(After(s, EnterStop(id, call)))
  {
    var s' := After(s, EnterStop(id, call));
    LogGrows(s, s', Stopped);
    forall p | 0 <= p < |s'.procs| && s'.procs[p] == Running
      ensures HeldBy(s', p)
    {
      if s.f.cmd == Some(p) {
        assert s'.pcs[id].held == Some(p);
      } else {
        var k :| k in s.pcs && s.pcs[k].Ending? && s.pcs[k].held == Some(p);
        assert s'.pcs[k] == s.pcs[k];
      }
    }
  }

  lemma RestartKeepsInv(s: System, id: nat, available: bool, spawns: bool)
    requires Inv(s) && Enabled(s, Restart(id, available, spawns))
    ensures Inv(After(s, Restart(id, available, spawns)))
  {
    StartKeepsInv(s, available, spawns);
    hide Inv, AfterStart;
    ForgetThread(AfterStart(s, available, spawns).0, After(s, Restart(id, available, spawns)), id);
  }

  lemma ReassertKeepsInv(s: System, id: nat)
    requires Inv(s) && Enabled(s, Reassert(id))
    ensures Inv(After(s, Reassert(id)))
  {
    var s' := After(s, Reassert(id));
    LogGrows(s, s', Wanted);
    HoldersStay(s, s');
    hide HeldBy, LogInv;
  }

  lemma ShutdownKeepsInv(s: System, id: nat)
    requires Inv(s) && Enabled(s, EnterShutdown(id))
    ensures Inv(After(s, EnterShutdown(id)))
  {
    HoldersStay(s, After(s, EnterShutdown(id)));
    hide HeldBy;
  }

  lemma DeathKeepsInv(s: System, t: Step)
    requires Inv(s) && Enabled(s, t) && (t.Exit? || t.Reap?)
    ensures Inv(After(s, t))
  {
    HoldersStay(s, After(s, t));
    hide HeldBy;
  }

  lemma StepKeepsInv(s: System, t: Step)
    requires Inv(s) && Enabled(s, t)
    ensures Inv(After(s, t))
  {
    hide Inv, AfterStart, AfterWatchdog, AfterFinish, HeldBy;
    match t
    case CallStart(a, b) => StartKeepsInv(s, a, b);
    case CallWatchdog(a, b) => WatchdogKeepsInv(s, a, b);
    case EnterStop(id, call) => EnterStopKeepsInv(s, id, call);
    case FinishStop(id, failed) => FinishKeepsInv(s, id, failed);
    case Restart(id, a, b) => RestartKeepsInv(s, id, a, b);
    case Reassert(id) => ReassertKeepsInv(s, id);
    case EnterShutdown(id) => ShutdownKeepsInv(s, id);
    case Exit(_) => DeathKeepsInv(s, t);
    case Reap(_) => DeathKeepsInv(s, t);
  }

  /** Threads that hold nothing may come and go. */
  lemma HoldersStay(s: System, s': System)
    requires forall k | k in s.pcs && s.pcs[k].Ending? :: k in s'.pcs && s'.pcs[k] == s.pcs[k]
    ensures forall p | HeldBy(s, p) :: HeldBy(s', p)
  {
  }

  lemma ForgetThread(u: System, s': System, id: nat)
    requires Inv(u) && s'.f == u.f && s'.procs == u.procs && s'.shut == u.shut && s'.log == u.log
    requires id in u.pcs && u.pcs[id] == Restarting
    requires s'.pcs == u.pcs - {id} || s'.pcs == u.pcs[id := Reasserting]
    ensures Inv(s')
  {
    HoldersStay(u, s');
    hide HeldBy, LogInv;
  }

  lemma {:induction false} RunKeepsInv(s: System, run: seq<Step>)
    requires Inv(s) && IsRun(s, run)
    ensures Inv(Result(s, run))
    decreases |run|
  {
    if run != [] {
      StepKeepsInv(s, run[0]);
      RunKeepsInv(After(s, run[0]), run[1..]);
    }
  }

  /** No orphan core, in any interleaving: every live process is the tracked one or held by a Stop still in
      flight, and nothing is ever spawned once Shutdown has closed the supervisor. */
  lemma NoOrphanCore(run: seq<Step>)
    requires IsRun(INITIAL, run)
    ensures var s := Result(INITIAL, run);
            NoOrphan(s) && forall i | 0 <= i < |s.log| && s.log[i].Spawn? :: !s.log[i].closedBefore
  {
    RunKeepsInv(INITIAL, run);
  }

  /** When Shutdown's Stop has taken the core and no Stop is in flight any more, no process lives. */
  lemma ShutdownLeavesNone(run: seq<Step>)
    requires IsRun(INITIAL, run)
    requires Result(INITIAL, run).shut
    requires forall id | id in Result(INITIAL, run).pcs :: !Result(INITIAL, run).pcs[id].Ending?
    ensures forall p | 0 <= p < |Result(INITIAL, run).procs| :: Result(INITIAL, run).procs[p] != Running
  {
    RunKeepsInv(INITIAL, run);
  }

  /** The watchdog starts the core only while the intent was set since the last Stop: by a Start, or by a
      Reload putting it back, which may have been called before that Stop. */
  lemma WatchdogFollowsIntent(run: seq<Step>, i: nat)
    requires IsRun(INITIAL, run) && i < |Result(INITIAL, run).log|
    ensures Result(INITIAL, run).log[i] == WatchdogSpawn ==> Asked(Result(INITIAL, run).log[..i])
  {
    RunKeepsInv(INITIAL, run);
  }

  // ---- What the calls bring about -----------------------------------------------------------------

  /** Process p is tracked, and not known to be dead. */
  predicate Up(s: System, p: nat) { s.f.cmd == Some(p) && p < |s.procs| && s.procs[p] != Reaped }

  /** A fresh process is tracked, running and wanted; the ones before are as they were. */
  predicate FreshCore(s: System, u: System) {
    u.procs == s.procs + [Running] && u.f == Fields(Some(|s.procs|), true, s.f.closed)
  }

  /** Start: a core that is up is kept and wanted again; otherwise a fresh one is spawned, unless the supervisor is
      closed, the binary is missing or the spawn fails, and then nothing changes at all. */
  lemma StartBringsUp(s: System, available: bool, spawns: bool)
    ensures var u := After(s, CallStart(available, spawns));
            && (forall p | Up(s, p) :: u.f == s.f.(desired := true) && u.procs == s.procs)
            && ((forall p :: !Up(s, p)) ==>
                  if !s.f.closed && available && spawns then FreshCore(s, u) else u == s)
  {
    assert forall p | Up(s, p) :: AliveLocked(s);
    assert AliveLocked(s) ==> Up(s, s.f.cmd.value);
  }

  /** The watchdog acts exactly on a core that is wanted and not up. */
  lemma WatchdogBringsUp(s: System, available: bool, spawns: bool)
    ensures var u := After(s, CallWatchdog(available, spawns));
            if s.f.desired && (forall p :: !Up(s, p)) && !s.f.closed && available && spawns then FreshCore(s, u)
            else u == s
  {
    assert forall p | Up(s, p) :: AliveLocked(s);
    assert AliveLocked(s) ==> Up(s, s.f.cmd.value);
  }

  /** Stop: nothing is tracked or wanted from its first section on, and the process it took is dead when it
      returns; nothing else about the processes changes. */
  lemma StopBringsDown(s: System, id: nat, failed: bool)
    requires Enabled(s, EnterStop(id, StopCall))
    ensures var t := After(s, EnterStop(id, StopCall));
            && t.f == Fields(None, false, s.f.closed) && Enabled(t, FinishStop(id, failed))
            && var u := After(t, FinishStop(id, failed));
               && u.f == t.f && u.pcs == s.pcs && |u.procs| == |s.procs|
               && forall p | 0 <= p < |s.procs| ::
                    u.procs[p] == if s.f.cmd == Some(p) && s.procs[p] == Running then Dead else s.procs[p]
  {
    assert s.pcs[id := Ending(StopCall, s.f.cmd)] - {id} == s.pcs;
  }

  /** Reload, with nothing in between: a fresh core, the old one dead; and when that is refused the intent is back,
      for the watchdog. */
  lemma ReloadRestarts(s: System, id: nat, failed: bool, available: bool, spawns: bool)
    requires Enabled(s, EnterStop(id, ReloadCall))
    ensures var t := After(After(s, EnterStop(id, ReloadCall)), FinishStop(id, failed));
            && (failed ==> Enabled(t, Reassert(id)) && After(t, Reassert(id)).f == Fields(None, true, s.f.closed))
            && (!failed ==>
                  && Enabled(t, Restart(id, available, spawns))
                  && var u := After(t, Restart(id, available, spawns));
                     if !s.f.closed && available && spawns
                     then FreshCore(t, u) && id !in u.pcs && (s.f.cmd.Some? && s.f.cmd.value < |s.procs| ==>
                                                                u.procs[s.f.cmd.value] != Running)
                     else Enabled(u, Reassert(id)) && After(u, Reassert(id)).f == Fields(None, true, s.f.closed))
  {
  }

  /** Once Shutdown has taken the core nothing opens the supervisor again. */
  lemma {:induction false} ShutdownIsFinal(s: System, run: seq<Step>)
    requires IsRun(s, run) && s.f.closed
    ensures var u := Result(s, run);
            && u.f.closed && (s.shut ==> u.shut)
            && forall t, id | t in run && t == EnterStop(id, ShutdownCall) :: u.shut
    decreases |run|
  {
    if run != [] {
      ClosedStays(s, run[0]);
      ShutdownIsFinal(After(s, run[0]), run[1..]);
      assert forall t | t in run :: t == run[0] || t in run[1..];
    }
  }

  lemma ClosedStays(s: System, t: Step)
    requires Enabled(s, t)
    ensures var u := After(s, t);
            && (s.f.closed || t.EnterShutdown? <==> u.f.closed)
            && (s.shut || (t.EnterStop? && t.call == ShutdownCall) <==> u.shut)
  {
  }

  // ---- The watchdog after a Stop ------------------------------------------------------------------

  /** A call that asks for the core. */
  predicate Asks(t: Step) { t.CallStart? || (t.EnterStop? && t.call == ReloadCall) }

  predicate Quiet(run: seq<Step>) { forall t | t in run :: !Asks(t) }

  predicate Reloads(pc: Pc) { (pc.Ending? && pc.call == ReloadCall) || pc == Restarting || pc == Reasserting }

  /** A Reload that was called and has not returned. */
  predicate ReloadInFlight(s: System) { exists id | id in s.pcs :: Reloads(s.pcs[id]) }

  predicate WatchdogSpawns(s: System, available: bool, spawns: bool) {
    StartIfDesiredDead(s.f, AliveLocked(s), available, spawns, |s.procs|).1
  }

  lemma UnaskedStep(s: System, t: Step)
    requires !s.f.desired && !ReloadInFlight(s) && Enabled(s, t) && !Asks(t)
    ensures !After(s, t).f.desired && !ReloadInFlight(After(s, t))
  {
    forall id | id in After(s, t).pcs ensures !Reloads(After(s, t).pcs[id]) {
      if id in s.pcs { assert !Reloads(s.pcs[id]); }
    }
  }

  lemma {:induction false} UnaskedRun(s: System, run: seq<Step>)
    requires !s.f.desired && !ReloadInFlight(s) && IsRun(s, run) && Quiet(run)
    ensures !Result(s, run).f.desired
    decreases |run|
  {
    if run != [] {
      assert run[0] in run && forall t | t in run[1..] :: t in run;
      hide After, Enabled, ReloadInFlight;
      UnaskedStep(s, run[0]);
      UnaskedRun(After(s, run[0]), run[1..]);
    }
  }

  lemma OneStep(s: System, t: Step, rest: seq<Step>)
    requires Enabled(s, t) && IsRun(After(s, t), rest)
    ensures IsRun(s, [t] + rest) && Result(s, [t] + rest) == Result(After(s, t), rest)
  {
    hide Enabled, After;
    assert ([t] + rest)[1..] == rest;
  }

  lemma NoStep(s: System)
    ensures IsRun(s, []) && Result(s, []) == s
  {
  }

  lemma StepTo(s: System, t: Step, s': System, rest: seq<Step>, end: System)
    requires Enabled(s, t) && After(s, t) == s' && IsRun(s', rest) && Result(s', rest) == end
    ensures IsRun(s, [t] + rest) && Result(s, [t] + rest) == end
  {
    OneStep(s, t, rest);
  }

  /** The Reload in flight fails from here on, and puts the intent back. */
  lemma ReloadPutsItBack(s: System, id: nat) returns (run: seq<Step>)
    requires id in s.pcs && Reloads(s.pcs[id]) && s.f.cmd == None
    ensures IsRun(s, run) && Quiet(run)
    ensures Result(s, run).f == Reasserted(s.f)
  {
    hide IsRun, Result, Ended;
    if s.pcs[id] == Reasserting {
      NoStep(After(s, Reassert(id)));
      OneStep(s, Reassert(id), []);
      run := [Reassert(id)] + [];
    } else {
      var t := if s.pcs[id] == Restarting then Restart(id, false, false) else FinishStop(id, true);
      var u := After(s, t);
      assert u.pcs[id] == Reasserting && u.f == s.f;
      NoStep(After(u, Reassert(id)));
      OneStep(u, Reassert(id), []);
      OneStep(s, t, [Reassert(id)] + []);
      run := [t] + ([Reassert(id)] + []);
    }
  }

  lemma SameReloads(s: System, id: nat)
    requires id !in s.pcs
    ensures ReloadInFlight(After(s, EnterStop(id, StopCall))) <==> ReloadInFlight(s)
  {
    var u := After(s, EnterStop(id, StopCall));
    assert forall k | k in s.pcs :: u.pcs[k] == s.pcs[k];
    assert !Reloads(u.pcs[id]);
    if k :| k in u.pcs && Reloads(u.pcs[k]) { assert k in s.pcs && Reloads(s.pcs[k]); }
    if k :| k in s.pcs && Reloads(s.pcs[k]) { assert Reloads(u.pcs[k]); }
  }

  /** After a Stop the watchdog can start the core with no Start or Reload called since, exactly when a Reload
      called before had not returned when the Stop took the core. */
  lemma WatchdogAfterStopIff(s: System, id: nat)
    requires Enabled(s, EnterStop(id, StopCall)) && !s.f.closed
    ensures var u := After(s, EnterStop(id, StopCall));
            (exists run: seq<Step> | IsRun(u, run) && Quiet(run) :: WatchdogSpawns(Result(u, run), true, true)) <==>
            ReloadInFlight(s)
  {
    var u := After(s, EnterStop(id, StopCall));
    assert !u.f.desired && u.f.cmd == None && !u.f.closed;
    SameReloads(s, id);
    if k :| k in u.pcs && Reloads(u.pcs[k]) {
      var run := ReloadPutsItBack(u, k);
      assert WatchdogSpawns(Result(u, run), true, true);
    } else {
      forall run: seq<Step> | IsRun(u, run) && Quiet(run) ensures !WatchdogSpawns(Result(u, run), true, true) {
        UnaskedRun(u, run);
      }
    }
  }

  /** So from the start: a Start, a Reload whose process dies, a Stop that begins and returns, and the Reload,
      whose Start is refused, wants the core again. No call was made after the Stop's. */
  const UNDONE: seq<Step> :=
    [CallStart(true, true), EnterStop(1, ReloadCall), Exit(0), FinishStop(1, false), EnterStop(2, StopCall),
     FinishStop(2, false), Restart(1, false, true), Reassert(1)]

  const GONE := Fields(None, false, false)
  const STOPPED := [Spawn(false), Wanted, Stopped]
  const BOTH_STOPPED := STOPPED + [Stopped]
  const RESTARTING := map[1 := Restarting]

  const S2 := System(GONE, [Running], map[1 := Ending(ReloadCall, Some(0))], false, STOPPED)
  const S4 := System(GONE, [Dead], RESTARTING, false, STOPPED)
  const S6 := System(GONE, [Dead], RESTARTING, false, BOTH_STOPPED)
  const S8 := System(Reasserted(GONE), [Dead], map[], false, BOTH_STOPPED + [Wanted])

  const S1 := System(Fields(Some(0), true, false), [Running], map[], false, [Spawn(false), Wanted])

  lemma ReloadFails()
    ensures IsRun(S6, UNDONE[6..]) && Result(S6, UNDONE[6..]) == S8
  {
    var s7 := System(GONE, [Dead], RESTARTING[1 := Reasserting], false, BOTH_STOPPED);
    hide IsRun, Result;
    assert RESTARTING[1 := Reasserting] - {1} == map[];
    NoStep(S8);
    StepTo(s7, Reassert(1), S8, UNDONE[8..], S8);
    StepTo(S6, Restart(1, false, true), s7, UNDONE[7..], S8);
  }

  lemma StopBegins()
    ensures IsRun(S4, UNDONE[4..]) && Result(S4, UNDONE[4..]) == S8
  {
    var s5 := System(GONE, [Dead], RESTARTING[2 := Ending(StopCall, None)], false, BOTH_STOPPED);
    ReloadFails();
    hide IsRun, Result;
    assert RESTARTING[2 := Ending(StopCall, None)] - {2} == RESTARTING;
    StepTo(s5, FinishStop(2, false), S6, UNDONE[6..], S8);
    StepTo(S4, EnterStop(2, StopCall), s5, UNDONE[5..], S8);
  }

  lemma ReloadStops()
    ensures IsRun(S2, UNDONE[2..]) && Result(S2, UNDONE[2..]) == S8
  {
    var s3 := System(GONE, [Dead], map[1 := Ending(ReloadCall, Some(0))], false, STOPPED);
    StopBegins();
    hide IsRun, Result;
    assert map[1 := Ending(ReloadCall, Some(0))][1 := Restarting] == RESTARTING;
    StepTo(s3, FinishStop(1, false), S4, UNDONE[4..], S8);
    StepTo(S2, Exit(0), s3, UNDONE[3..], S8);
  }

  lemma ReloadCalled()
    ensures IsRun(S1, UNDONE[1..]) && Result(S1, UNDONE[1..]) == S8
  {
    ReloadStops();
    hide IsRun, Result;
    assert [EnterStop(1, ReloadCall)] + UNDONE[2..] == UNDONE[1..];
    StepTo(S1, EnterStop(1, ReloadCall), S2, UNDONE[2..], S8);
  }

  lemma StopIsUndone()
    ensures IsRun(INITIAL, UNDONE) && Quiet(UNDONE[5..])
    ensures WatchdogSpawns(Result(INITIAL, UNDONE), true, true)
  {
    ReloadCalled();
    StepTo(INITIAL, CallStart(true, true), S1, UNDONE[1..], S8);
    hide IsRun, Result;
    assert [CallStart(true, true)] + UNDONE[1..] == UNDONE;
  }
}
