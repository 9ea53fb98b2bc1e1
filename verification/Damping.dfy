/** Flap damping of internal/failover/damper.go. Penalties are reals and the half-life decay is any
    function of the elapsed time that turns sums into products; rounding is not modelled. */
module Damping {
  import opened Wrappers

  type Decay = int -> real

  ghost predicate IsDecay(d: Decay) {
    d(0) == 1.0 && forall a, b | a >= 0 && b >= 0 :: d(a + b) == d(a) * d(b)
  }

  /** The configuration with its defaults filled in. */
  datatype DampConfig = DampConfig(flapPenalty: real, decay: Decay, suppressAt: real, reuseAt: real, maxSuppress: int)

  datatype DampState = DampState(penalty: real, lastUpdate: int, seen: bool, suppressed: bool, suppSince: int)

  const UNSEEN := DampState(0.0, 0, false, false, 0)

  function DecayTo(cfg: DampConfig, s: DampState, now: int): (t: DampState)
    ensures t.lastUpdate == now && t.seen && t.suppressed == s.suppressed && t.suppSince == s.suppSince
  {
    s.(penalty := if s.seen && now > s.lastUpdate then s.penalty * cfg.decay(now - s.lastUpdate) else s.penalty,
       lastUpdate := now, seen := true)
  }

  function Flapped(cfg: DampConfig, s: DampState, now: int): DampState {
    var u := DecayTo(cfg, s, now);
    u.(penalty := u.penalty + cfg.flapPenalty)
  }

  function Queried(cfg: DampConfig, s: DampState, now: int): DampState {
    var u := DecayTo(cfg, s, now);
    if u.suppressed then
      if u.penalty <= cfg.reuseAt || now - u.suppSince >= cfg.maxSuppress then u.(suppressed := false) else u
    else if u.penalty > cfg.suppressAt then u.(suppressed := true, suppSince := now)
    else u
  }

  class Damper {
    const cfg: DampConfig
    var state: map<string, DampState>

    constructor (cfg: DampConfig)
      ensures this.cfg == cfg && state == map[]
    {
      this.cfg := cfg;
      state := map[];
    }

    method Penalize(member: string, now: int)
      modifies this
      ensures state == old(state)[member :=
                                   Flapped(cfg, if member in old(state) then old(state)[member] else UNSEEN, now)]
    {
      var s := if member in state then state[member] else UNSEEN;
      var penalty := s.penalty;
      if s.seen && now > s.lastUpdate {
        penalty := penalty * cfg.decay(now - s.lastUpdate);
      }
      var next := DampState(penalty + cfg.flapPenalty, now, true, s.suppressed, s.suppSince);
      assert next == Flapped(cfg, s, now);
      state := state[member := next];
    }

    method Suppressed(member: string, now: int) returns (yes: bool)
      modifies this
      ensures member !in old(state) ==> !yes && state == old(state)
      ensures member in old(state) ==>
                var s := Queried(cfg, old(state)[member], now);
                state == old(state)[member := s] && yes == s.suppressed
    {
      if member !in state {
        return false;
      }
      var s := state[member];
      var penalty := s.penalty;
      if s.seen && now > s.lastUpdate {
        penalty := penalty * cfg.decay(now - s.lastUpdate);
      }
      var suppressed, since := s.suppressed, s.suppSince;
      if suppressed {
        if penalty <= cfg.reuseAt || now - since >= cfg.maxSuppress {
          suppressed := false;
        }
      } else if penalty > cfg.suppressAt {
        suppressed, since := true, now;
      }
      var next := DampState(penalty, now, true, suppressed, since);
      assert next == Queried(cfg, s, now);
      state := state[member := next];
      return suppressed;
    }
  }

  // ---- One member's history -----------------------------------------------------------------------

  datatype Event = Flap(at: int) | Query(at: int)

  ghost predicate Ordered(es: seq<Event>) {
    forall i, j | 0 <= i < j < |es| :: es[i].at <= es[j].at
  }

  /** The member's state after its calls so far; none before the first flap. */
  function After(cfg: DampConfig, es: seq<Event>): Option<DampState> {
    if es == [] then None
    else
      var before := After(cfg, es[..|es| - 1]);
      match es[|es| - 1]
      case Flap(at) => Some(Flapped(cfg, if before.Some? then before.value else UNSEEN, at))
      case Query(at) => if before.Some? then Some(Queried(cfg, before.value, at)) else None
  }

  /** What call n answered, when it is a query. */
  function Answer(cfg: DampConfig, es: seq<Event>, n: nat): bool
    requires n < |es|
  {
    var s := After(cfg, es[..n + 1]);
    s.Some? && s.value.suppressed
  }

  /** The flaps so far, each decayed from its own time to now. */
  function DecayedFlaps(cfg: DampConfig, es: seq<Event>, now: int): real {
    if es == [] then 0.0
    else
      var last := es[|es| - 1];
      DecayedFlaps(cfg, es[..|es| - 1], now) + if last.Flap? then cfg.flapPenalty * cfg.decay(now - last.at) else 0.0
  }

  lemma DecaySplit(d: Decay, a: int, b: int)
    requires IsDecay(d) && a >= 0 && b >= 0
    ensures d(a + b) == d(a) * d(b)
  {
  }

  lemma Distribute(x: real, f: real, a: real, c: real)
    ensures (x + f * a) * c == x * c + f * (a * c)
  {
  }

  lemma {:induction false} DecayFurther(cfg: DampConfig, es: seq<Event>, earlier: int, now: int)
    requires IsDecay(cfg.decay) && earlier <= now && forall i | 0 <= i < |es| :: es[i].at <= earlier
    ensures DecayedFlaps(cfg, es, now) == DecayedFlaps(cfg, es, earlier) * cfg.decay(now - earlier)
  {
    hide IsDecay;
    if es != [] {
      var before, last := es[..|es| - 1], es[|es| - 1];
      DecayFurther(cfg, before, earlier, now);
      if last.Flap? {
        DecaySplit(cfg.decay, earlier - last.at, now - earlier);
        assert (earlier - last.at) + (now - earlier) == now - last.at;
        Distribute(DecayedFlaps(cfg, before, earlier), cfg.flapPenalty, cfg.decay(earlier - last.at),
                   cfg.decay(now - earlier));
      }
    }
  }

  lemma NoDecayNow(d: Decay, x: real)
    requires IsDecay(d)
    ensures x * d(0) == x
  {
  }

  lemma {:induction false} NoFlapYet(cfg: DampConfig, es: seq<Event>, now: int)
    requires After(cfg, es).None?
    ensures DecayedFlaps(cfg, es, now) == 0.0
  {
    if es != [] {
      NoFlapYet(cfg, es[..|es| - 1], now);
    }
  }

  /** The penalty a member has is its flaps decayed to its last call. */
  ghost predicate UpToDate(cfg: DampConfig, es: seq<Event>, s: DampState) {
    s.seen && es != [] && s.lastUpdate == es[|es| - 1].at && s.penalty == DecayedFlaps(cfg, es, s.lastUpdate)
  }

  lemma DecayCatchesUp(cfg: DampConfig, es: seq<Event>, s: DampState, now: int)
    requires IsDecay(cfg.decay) && Ordered(es) && UpToDate(cfg, es, s) && s.lastUpdate <= now
    ensures DecayTo(cfg, s, now).penalty == DecayedFlaps(cfg, es, now)
  {
    hide IsDecay, DecayedFlaps;
    if s.lastUpdate < now {
      DecayFurther(cfg, es, s.lastUpdate, now);
    }
  }

  /** Decaying lazily, only when a call comes, loses nothing: at its last call the member's penalty is the
      sum of its flap penalties each decayed to that moment, however many queries came between. */
  lemma {:induction false} PenaltyIsDecayedFlaps(cfg: DampConfig, es: seq<Event>)
    requires IsDecay(cfg.decay) && Ordered(es) && After(cfg, es).Some?
    ensures UpToDate(cfg, es, After(cfg, es).value)
  {
    hide IsDecay, DecayTo;
    var before, last := es[..|es| - 1], es[|es| - 1];
    assert forall i | 0 <= i < |before| :: before[i] == es[i];
    NoDecayNow(cfg.decay, cfg.flapPenalty);
    if After(cfg, before).Some? {
      var s := After(cfg, before).value;
      PenaltyIsDecayedFlaps(cfg, before);
      DecayCatchesUp(cfg, before, s, last.at);
    } else {
      NoFlapYet(cfg, before, last.at);
      FirstFlap(cfg, last.at);
    }
  }

  lemma FirstFlap(cfg: DampConfig, now: int)
    ensures Flapped(cfg, UNSEEN, now).penalty == cfg.flapPenalty
  {
  }

  /** Queries i..j all answered that the member is suppressed. */
  ghost predicate Unbroken(cfg: DampConfig, es: seq<Event>, i: nat, j: nat)
    requires i <= j < |es|
  {
    forall k | i <= k <= j && es[k].Query? :: Answer(cfg, es, k)
  }

  lemma {:induction false} SuppressedSince(cfg: DampConfig, es: seq<Event>, i: nat, j: nat)
    requires Ordered(es) && i <= j < |es| && es[i].Query? && Unbroken(cfg, es, i, j)
    ensures var s, t := After(cfg, es[..i + 1]), After(cfg, es[..j + 1]);
            s.Some? && t.Some? && t.value.suppressed && t.value.suppSince == s.value.suppSince <= es[i].at
    decreases j
  {
    hide After, Ordered;
    assert es[j].Query? ==> Answer(cfg, es, j);
    if i == j {
      OrderedFront(es, i + 1);
      SinceIsPast(cfg, es[..i + 1]);
    } else {
      assert Unbroken(cfg, es, i, j - 1);
      hide Unbroken;
      SuppressedSince(cfg, es, i, j - 1);
      AfterNext(cfg, es, j);
    }
  }

  lemma OrderedFront(es: seq<Event>, n: nat)
    requires Ordered(es) && n <= |es|
    ensures Ordered(es[..n])
  {
  }

  /** A state stays suppressed, since the same moment, through a flap and through a query that says so. */
  lemma AfterNext(cfg: DampConfig, es: seq<Event>, j: nat)
    requires j < |es| && After(cfg, es[..j]).Some?
    ensures var s, t := After(cfg, es[..j]).value, After(cfg, es[..j + 1]);
            && t.Some?
            && (s.suppressed && (es[j].Flap? || t.value.suppressed) ==>
                  t.value.suppressed && t.value.suppSince == s.suppSince)
  {
    assert es[..j + 1][..j] == es[..j];
    hide DecayTo;
  }

  lemma {:induction false} SinceIsPast(cfg: DampConfig, es: seq<Event>)
    requires Ordered(es)
    ensures After(cfg, es).Some? && After(cfg, es).value.suppressed ==>
              es != [] && After(cfg, es).value.suppSince <= es[|es| - 1].at
  {
    if es != [] {
      var before := es[..|es| - 1];
      SinceIsPast(cfg, before);
      assert forall i | 0 <= i < |before| :: before[i] == es[i];
      if before != [] {
        assert es[|before| - 1].at <= es[|before|].at;
      }
    }
  }

  /** No unbroken stretch of "suppressed" answers spans MaxSuppress, whatever flaps fall into it. */
  lemma SuppressionIsBounded(cfg: DampConfig, es: seq<Event>, i: nat, j: nat)
    requires cfg.maxSuppress > 0 && Ordered(es)
    requires i <= j < |es| && es[i].Query? && es[j].Query? && Unbroken(cfg, es, i, j)
    ensures es[j].at - es[i].at < cfg.maxSuppress
  {
    SuppressedSince(cfg, es, i, j);
    assert es[..j + 1][..j] == es[..j];
    assert Answer(cfg, es, j);
  }

  /** What the last query answered; no, before the first. */
  function LastAnswer(cfg: DampConfig, es: seq<Event>): bool {
    es != [] && (if es[|es| - 1].Query? then Answer(cfg, es, |es| - 1) else LastAnswer(cfg, es[..|es| - 1]))
  }

  /** When the query came that began the latest stretch of "suppressed" answers. */
  function SuppressedFrom(cfg: DampConfig, es: seq<Event>): int {
    if es == [] then 0
    else
      var before, last := es[..|es| - 1], es[|es| - 1];
      if last.Query? && Answer(cfg, es, |es| - 1) && !LastAnswer(cfg, before) then last.at
      else SuppressedFrom(cfg, before)
  }

  lemma {:induction false} StateIsAnswers(cfg: DampConfig, es: seq<Event>)
    ensures var s := After(cfg, es);
            && (s.Some? ==> s.value.suppressed == LastAnswer(cfg, es))
            && (s.Some? && s.value.suppressed ==> s.value.suppSince == SuppressedFrom(cfg, es))
            && (s.None? ==> !LastAnswer(cfg, es))
            && (s.Some? <==> exists i :: 0 <= i < |es| && es[i].Flap?)
  {
    if es != [] {
      var before := es[..|es| - 1];
      StateIsAnswers(cfg, before);
      assert es[..|es|] == es;
      assert es == before + [es[|es| - 1]];
      hide DecayTo;
      if es[|es| - 1].Flap? { assert es[|es| - 1].Flap?; }
    }
  }

  /** What a query answers, from the calls alone. A member that never flapped is not suppressed. Otherwise it is the
      decayed flaps that decide: above SuppressAt they begin a suppression; under one they keep it while above
      ReuseAt, until MaxSuppress has passed since it began. */
  lemma QueryAnswers(cfg: DampConfig, es: seq<Event>, now: int)
    requires IsDecay(cfg.decay) && Ordered(es + [Query(now)])
    ensures var flaps := DecayedFlaps(cfg, es, now);
            Answer(cfg, es + [Query(now)], |es|) <==>
            && (exists i :: 0 <= i < |es| && es[i].Flap?)
            && if LastAnswer(cfg, es) then flaps > cfg.reuseAt && now - SuppressedFrom(cfg, es) < cfg.maxSuppress
               else flaps > cfg.suppressAt
  {
    var all := es + [Query(now)];
    assert all[..|es| + 1] == all && all[..|es|] == es;
    StateIsAnswers(cfg, es);
    if After(cfg, es).Some? { PenaltyNow(cfg, es, now); }
    hide IsDecay, DecayTo, DecayedFlaps, LastAnswer, SuppressedFrom, Ordered;
  }

  lemma PenaltyNow(cfg: DampConfig, es: seq<Event>, now: int)
    requires IsDecay(cfg.decay) && Ordered(es + [Query(now)]) && After(cfg, es).Some?
    ensures DecayTo(cfg, After(cfg, es).value, now).penalty == DecayedFlaps(cfg, es, now)
  {
    var all := es + [Query(now)];
    assert forall i | 0 <= i < |es| :: es[i] == all[i];
    hide IsDecay, DecayTo, DecayedFlaps, After;
    PenaltyIsDecayedFlaps(cfg, es);
    assert all[|es| - 1].at <= all[|es|].at;
    DecayCatchesUp(cfg, es, After(cfg, es).value, now);
  }
}
