/** Where internal/changeset/undo.go puts an id back into a reordered list, and the relative order
    internal/changeset/changeset.go reviews. The methods are the loops of the source; each is proved
    equal to a function, and the lemmas say what the chosen slot means. */
module Placement {

  ghost predicate Distinct<T>(s: seq<T>) {
    forall i, j | 0 <= i < j < |s| :: s[i] != s[j]
  }

  function Insert<T>(s: seq<T>, v: T, at: nat): seq<T>
    requires at <= |s|
  {
    s[..at] + [v] + s[at..]
  }

  /** The position of each baseline id (the last one, should an id repeat). */
  function Ranks(base: seq<string>): (rank: map<string, nat>)
    ensures forall x :: x in rank <==> x in base
    ensures forall x | x in rank :: rank[x] < |base| && base[rank[x]] == x
  {
    if base == [] then map[] else Ranks(base[..|base| - 1])[base[|base| - 1] := |base| - 1]
  }

  function Without(s: seq<string>, id: string): (rest: seq<string>)
    ensures |rest| <= |s|
    ensures forall x :: x in rest <==> x in s && x != id
  {
    if s == [] then []
    else if s[|s| - 1] == id then Without(s[..|s| - 1], id)
    else Without(s[..|s| - 1], id) + [s[|s| - 1]]
  }

  /** The slot id occupies among the others, or -1. */
  function CurrentSlot(s: seq<string>, id: string): (slot: int)
    ensures -1 <= slot <= |Without(s, id)|
    ensures slot >= 0 <==> id in s
  {
    if s == [] then -1
    else if s[|s| - 1] == id then |Without(s[..|s| - 1], id)|
    else CurrentSlot(s[..|s| - 1], id)
  }

  /** How many of s the baseline puts before (after) position own. */
  function Earlier(rank: map<string, nat>, own: nat, s: seq<string>): nat {
    if s == [] then 0
    else Earlier(rank, own, s[..|s| - 1]) + if s[|s| - 1] in rank && rank[s[|s| - 1]] < own then 1 else 0
  }

  function Later(rank: map<string, nat>, own: nat, s: seq<string>): nat {
    if s == [] then 0
    else Later(rank, own, s[..|s| - 1]) + if s[|s| - 1] in rank && rank[s[|s| - 1]] >= own then 1 else 0
  }

  /** The shared objects that slot k leaves on the wrong side of an object of baseline position own. */
  function Misplaced(rank: map<string, nat>, own: nat, rest: seq<string>, k: nat): nat
    requires k <= |rest|
  {
    Later(rank, own, rest[..k]) + Earlier(rank, own, rest[k..])
  }

  lemma {:induction false} EarlierSplit(rank: map<string, nat>, own: nat, a: seq<string>, b: seq<string>)
    ensures Earlier(rank, own, a + b) == Earlier(rank, own, a) + Earlier(rank, own, b)
  {
    if b == [] {
      assert a + b == a;
    } else {
      EarlierSplit(rank, own, a, b[..|b| - 1]);
      assert (a + b)[..|a + b| - 1] == a + b[..|b| - 1];
    }
  }

  lemma MisplacedSlides(rank: map<string, nat>, own: nat, rest: seq<string>, k: nat)
    requires k < |rest|
    ensures Misplaced(rank, own, rest, k + 1) == Misplaced(rank, own, rest, k) +
            if rest[k] !in rank then 0 else if rank[rest[k]] < own then -1 else 1
  {
    assert rest[..k + 1][..k] == rest[..k];
    assert rest[k..] == [rest[k]] + rest[k + 1..];
    EarlierSplit(rank, own, [rest[k]], rest[k + 1..]);
    assert [rest[k]][..0] == [];
  }

  /** The earliest of the slots 0..k that misplaces the fewest. */
  function BestSlot(rank: map<string, nat>, own: nat, rest: seq<string>, k: nat): (b: nat)
    requires k <= |rest|
    ensures b <= k
    ensures forall j | 0 <= j <= k :: Misplaced(rank, own, rest, b) <= Misplaced(rank, own, rest, j)
    ensures forall j | 0 <= j < b :: Misplaced(rank, own, rest, b) < Misplaced(rank, own, rest, j)
  {
    if k == 0 then 0
    else
      var b := BestSlot(rank, own, rest, k - 1);
      if Misplaced(rank, own, rest, k) < Misplaced(rank, own, rest, b) then k else b
  }

  function RestoreSlot(base: seq<string>, desired: seq<string>, id: string): (slot: nat)
    ensures slot <= |Without(desired, id)|
  {
    var rank, rest, cur := Ranks(base), Without(desired, id), CurrentSlot(desired, id);
    if id !in rank then (if cur >= 0 then cur else |rest|)
    else
      var best := BestSlot(rank, rank[id], rest, |rest|);
      if cur >= 0 && Misplaced(rank, rank[id], rest, cur) == Misplaced(rank, rank[id], rest, best) then cur else best
  }

  /** The slot leaves the fewest shared objects on the wrong side of id; the current slot is kept
      whenever no other is better, and otherwise the earliest best one is taken. */
  lemma RestoreSlotIsOptimal(base: seq<string>, desired: seq<string>, id: string)
    requires id in base
    ensures var rank, rest, cur := Ranks(base), Without(desired, id), CurrentSlot(desired, id);
            var slot := RestoreSlot(base, desired, id);
            && (forall k | 0 <= k <= |rest| ::
                  Misplaced(rank, rank[id], rest, slot) <= Misplaced(rank, rank[id], rest, k))
            && (cur >= 0 && Misplaced(rank, rank[id], rest, cur) == Misplaced(rank, rank[id], rest, slot) ==>
                  slot == cur)
            && (slot != cur ==> forall k | 0 <= k < slot ::
                  Misplaced(rank, rank[id], rest, slot) < Misplaced(rank, rank[id], rest, k))
  {
  }

  /** restoreIndex. */
  method RestoreIndex(baseIDs: seq<string>, desiredIDs: seq<string>, id: string) returns (slot: nat)
    ensures slot == RestoreSlot(baseIDs, desiredIDs, id)
  {
    var rank := RankLoop(baseIDs);
    var rest, cur := Split(desiredIDs, id);
    if id !in rank {
      return if cur >= 0 then cur else |rest|;
    }
    slot := Slide(rank, rank[id], rest, cur);
  }

  method CountEarlier(rank: map<string, nat>, own: nat, rest: seq<string>) returns (misplaced: nat)
    ensures misplaced == Earlier(rank, own, rest)
  {
    misplaced := 0;
    for i := 0 to |rest|
      invariant misplaced == Earlier(rank, own, rest[..i])
    {
      assert rest[..i + 1][..i] == rest[..i];
      if rest[i] in rank && rank[rest[i]] < own {
        misplaced := misplaced + 1;
      }
    }
    assert rest[..|rest|] == rest;
  }

  lemma SlideStarts(rank: map<string, nat>, own: nat, rest: seq<string>)
    ensures Misplaced(rank, own, rest, 0) == Earlier(rank, own, rest) && BestSlot(rank, own, rest, 0) == 0
  {
    assert rest[..0] == [] && rest[0..] == rest;
  }

  lemma BestSlotNext(rank: map<string, nat>, own: nat, rest: seq<string>, k: nat)
    requires k < |rest|
    ensures var b := BestSlot(rank, own, rest, k);
            BestSlot(rank, own, rest, k + 1) ==
            if Misplaced(rank, own, rest, k + 1) < Misplaced(rank, own, rest, b) then k + 1 else b
  {
    hide Misplaced;
  }

  /** Start at slot 0 and slide right, keeping the count up to date by one object at a time. */
  method Slide(rank: map<string, nat>, own: nat, rest: seq<string>, cur: int) returns (slot: nat)
    requires -1 <= cur <= |rest|
    ensures var best := BestSlot(rank, own, rest, |rest|);
            slot ==
            if cur >= 0 && Misplaced(rank, own, rest, cur) == Misplaced(rank, own, rest, best) then cur else best
  {
    hide Misplaced, BestSlot, Earlier;
    var misplaced: int := CountEarlier(rank, own, rest);
    SlideStarts(rank, own, rest);
    var best, bestAt, atCur := misplaced, 0, if cur == 0 then misplaced else -1;
    for k := 0 to |rest|
      invariant misplaced == Misplaced(rank, own, rest, k)
      invariant bestAt == BestSlot(rank, own, rest, k) && best == Misplaced(rank, own, rest, bestAt)
      invariant atCur == if 0 <= cur <= k then Misplaced(rank, own, rest, cur) else -1
    {
      MisplacedSlides(rank, own, rest, k);
      BestSlotNext(rank, own, rest, k);
      if rest[k] in rank {
        if rank[rest[k]] < own {
          misplaced := misplaced - 1;
        } else {
          misplaced := misplaced + 1;
        }
      }
      if misplaced < best {
        best, bestAt := misplaced, k + 1;
      }
      if cur == k + 1 {
        atCur := misplaced;
      }
    }
    return if cur >= 0 && atCur == best then cur else bestAt;
  }

  method RankLoop(base: seq<string>) returns (rank: map<string, nat>)
    ensures rank == Ranks(base)
  {
    rank := map[];
    for i := 0 to |base|
      invariant rank == Ranks(base[..i])
    {
      assert base[..i + 1][..i] == base[..i];
      rank := rank[base[i] := i];
    }
    assert base[..|base|] == base;
  }

  method Split(desired: seq<string>, id: string) returns (rest: seq<string>, cur: int)
    ensures rest == Without(desired, id) && cur == CurrentSlot(desired, id)
  {
    rest, cur := [], -1;
    for i := 0 to |desired|
      invariant rest == Without(desired[..i], id) && cur == CurrentSlot(desired[..i], id)
    {
      assert desired[..i + 1][..i] == desired[..i];
      if desired[i] == id {
        cur := |rest|;
      } else {
        rest := rest + [desired[i]];
      }
    }
    assert desired[..|desired|] == desired;
  }

  // ---- The differ's own test: how many shared objects stand in front ------------------------------

  function SharedCount(other: seq<string>, s: seq<string>): nat {
    if s == [] then 0
    else SharedCount(other, s[..|s| - 1]) + if s[|s| - 1] in other then 1 else 0
  }

  /** relativeOrder: the rank of each shared object of ss among the shared objects. */
  function RelativeOrder(ss: seq<string>, other: seq<string>): (order: map<string, nat>)
    ensures forall x :: x in order <==> x in ss && x in other
  {
    if ss == [] then map[]
    else
      var before, last := ss[..|ss| - 1], ss[|ss| - 1];
      if last in other then RelativeOrder(before, other)[last := SharedCount(other, before)]
      else RelativeOrder(before, other)
  }

  method RelativeOrderLoop(ss: seq<string>, other: seq<string>) returns (out: map<string, nat>)
    ensures out == RelativeOrder(ss, other)
  {
    var rank := 0;
    out := map[];
    for i := 0 to |ss|
      invariant out == RelativeOrder(ss[..i], other) && rank == SharedCount(other, ss[..i])
    {
      assert ss[..i + 1][..i] == ss[..i];
      if ss[i] !in other {
        continue;
      }
      out := out[ss[i] := rank];
      rank := rank + 1;
    }
    assert ss[..|ss|] == ss;
  }

  lemma {:induction false} RelativeOrderAt(ss: seq<string>, other: seq<string>, i: nat)
    requires Distinct(ss) && i < |ss| && ss[i] in other
    ensures RelativeOrder(ss, other)[ss[i]] == SharedCount(other, ss[..i])
  {
    var before := ss[..|ss| - 1];
    if i < |ss| - 1 {
      RelativeOrderAt(before, other, i);
      assert before[..i] == ss[..i];
    }
  }

  /** rankSlot's first loop: id's baseline predecessors that are still there. */
  function Predecessors(base: seq<string>, desired: seq<string>, id: string): nat {
    if base == [] then 0
    else
      var before, last := base[..|base| - 1], base[|base| - 1];
      Predecessors(before, desired, id) + if id !in before && last != id && last in desired then 1 else 0
  }

  /** rankSlot's last loop, from index i on: the first and the last slot with k shared objects in front. */
  function Scan(base: seq<string>, rest: seq<string>, k: nat, i: nat, shared: nat, lo: nat): (range: (nat, nat))
    requires lo <= i <= |rest|
    ensures range.0 <= |rest| && range.1 <= |rest|
    decreases |rest| - i
  {
    if i == |rest| then (lo, |rest|)
    else if rest[i] !in base then Scan(base, rest, k, i + 1, shared, lo)
    else if shared == k then (lo, i)
    else Scan(base, rest, k, i + 1, shared + 1, if shared + 1 == k then i + 1 else lo)
  }

  function RankSlot(base: seq<string>, desired: seq<string>, id: string): (slot: nat)
    ensures slot <= |Without(desired, id)|
  {
    var rest, cur := Without(desired, id), CurrentSlot(desired, id);
    if id !in base then (if cur >= 0 then cur else |rest|)
    else
      var (lo, hi) := Scan(base, rest, Predecessors(base, desired, id), 0, 0, 0);
      if cur < 0 || cur < lo then lo else if cur > hi then hi else cur
  }

  /** rankSlot. */
  method RankSlotLoop(baseIDs: seq<string>, desiredIDs: seq<string>, id: string) returns (slot: nat)
    ensures slot == RankSlot(baseIDs, desiredIDs, id)
  {
    var k, found := 0, false;
    for i := 0 to |baseIDs|
      invariant found == (id in baseIDs[..i]) && k == Predecessors(baseIDs[..i], desiredIDs, id)
    {
      assert baseIDs[..i + 1][..i] == baseIDs[..i];
      if baseIDs[i] == id {
        found := true;
      } else if !found && baseIDs[i] in desiredIDs {
        k := k + 1;
      }
    }
    assert baseIDs[..|baseIDs|] == baseIDs;
    var rest, cur := Split(desiredIDs, id);
    if !found {
      return if cur >= 0 then cur else |rest|;
    }
    var lo, hi, shared := 0, |rest|, 0;
    var i := 0;
    while i < |rest|
      invariant lo <= i <= |rest| && hi == |rest|
      invariant Scan(baseIDs, rest, k, 0, 0, 0) == Scan(baseIDs, rest, k, i, shared, lo)
    {
      if rest[i] in baseIDs {
        if shared == k {
          hi := i;
          break;
        }
        shared := shared + 1;
        if shared == k {
          lo := i + 1;
        }
      }
      i := i + 1;
    }
    if cur < 0 || cur < lo {
      return lo;
    } else if cur > hi {
      return hi;
    }
    return cur;
  }

  lemma {:induction false} SharedMonotone(other: seq<string>, s: seq<string>, i: nat, j: nat)
    requires i <= j <= |s|
    ensures SharedCount(other, s[..i]) <= SharedCount(other, s[..j]) <= SharedCount(other, s[..i]) + (j - i)
    ensures (exists m | i <= m < j :: s[m] in other) ==> SharedCount(other, s[..i]) < SharedCount(other, s[..j])
    decreases j - i
  {
    if i < j {
      SharedMonotone(other, s, i, j - 1);
      assert s[..j][..j - 1] == s[..j - 1];
    }
  }

  /** The range the scan finds is exactly the set of slots with k shared objects in front. */
  lemma {:induction false} ScanFindsRange(base: seq<string>, rest: seq<string>, k: nat, i: nat, shared: nat, lo: nat)
    requires lo <= i <= |rest| && shared == SharedCount(base, rest[..i]) <= k <= SharedCount(base, rest)
    requires shared == k ==> SharedCount(base, rest[..lo]) == k && (lo == 0 || SharedCount(base, rest[..lo - 1]) < k)
    ensures var (first, last) := Scan(base, rest, k, i, shared, lo);
            first <= last && forall j | 0 <= j <= |rest| :: SharedCount(base, rest[..j]) == k <==> first <= j <= last
    decreases |rest| - i
  {
    assert rest[..|rest|] == rest;
    if i < |rest| {
      SharedCountNext(base, rest, i);
    }
    hide SharedCount;
    if i == |rest| || (rest[i] in base && shared == k) {
      RangeIsExact(base, rest, k, lo, i);
    } else if rest[i] !in base {
      ScanFindsRange(base, rest, k, i + 1, shared, lo);
    } else {
      ScanFindsRange(base, rest, k, i + 1, shared + 1, if shared + 1 == k then i + 1 else lo);
    }
  }

  lemma SharedCountNext(other: seq<string>, s: seq<string>, i: nat)
    requires i < |s|
    ensures SharedCount(other, s[..i + 1]) == SharedCount(other, s[..i]) + if s[i] in other then 1 else 0
  {
    assert s[..i + 1][..i] == s[..i];
  }

  lemma RangeIsExact(base: seq<string>, rest: seq<string>, k: nat, lo: nat, hi: nat)
    requires lo <= hi <= |rest| && SharedCount(base, rest[..hi]) == k == SharedCount(base, rest[..lo])
    requires lo == 0 || SharedCount(base, rest[..lo - 1]) < k
    requires hi == |rest| || rest[hi] in base
    ensures forall j | 0 <= j <= |rest| :: SharedCount(base, rest[..j]) == k <==> lo <= j <= hi
  {
    hide SharedCount;
    forall j | 0 <= j <= |rest| ensures SharedCount(base, rest[..j]) == k <==> lo <= j <= hi {
      if j < lo {
        SharedMonotone(base, rest, j, lo - 1);
      } else if j <= hi {
        SharedMonotone(base, rest, lo, j);
        SharedMonotone(base, rest, j, hi);
      } else {
        SharedMonotone(base, rest, hi, j);
      }
    }
  }

  lemma {:induction false} CountIsCardinality(other: seq<string>, s: seq<string>)
    requires Distinct(s)
    ensures SharedCount(other, s) == |SharedSet(other, s)|
  {
    if s == [] {
      assert SharedSet(other, s) == {};
    } else {
      var before, last := s[..|s| - 1], s[|s| - 1];
      assert s == before + [last];
      DistinctSnoc(before, last);
      hide Distinct;
      CountIsCardinality(other, before);
      SharedSetSnoc(other, before, last);
    }
  }

  function SharedSet(other: seq<string>, s: seq<string>): set<string> { set x | x in s && x in other }

  lemma SharedSetSnoc(other: seq<string>, s: seq<string>, x: string)
    ensures SharedSet(other, s + [x]) == if x in other then SharedSet(other, s) + {x} else SharedSet(other, s)
  {
    assert forall y :: y in s + [x] <==> y in s || y == x;
  }

  lemma SetInclusion(a: set<string>, b: set<string>)
    requires a <= b
    ensures |a| <= |b|
  {
    assert b == a + (b - a);
  }

  lemma {:induction false} PredecessorsAt(base: seq<string>, desired: seq<string>, bi: nat)
    requires Distinct(base) && bi < |base|
    ensures Predecessors(base, desired, base[bi]) == SharedCount(desired, base[..bi])
  {
    var before, id := base[..|base| - 1], base[bi];
    if bi < |base| - 1 {
      PredecessorsAt(before, desired, bi);
      assert before[bi] == id;
      assert before[..bi] == base[..bi];
    } else {
      AbsentPredecessors(before, desired, id);
    }
  }

  lemma {:induction false} AbsentPredecessors(base: seq<string>, desired: seq<string>, id: string)
    requires id !in base
    ensures Predecessors(base, desired, id) == SharedCount(desired, base)
  {
    if base != [] {
      AbsentPredecessors(base[..|base| - 1], desired, id);
    }
  }

  lemma WithoutSnoc(s: seq<string>, x: string, id: string)
    ensures Without(s + [x], id) == if x == id then Without(s, id) else Without(s, id) + [x]
    ensures CurrentSlot(s + [x], id) == if x == id then |Without(s, id)| else CurrentSlot(s, id)
  {
    assert (s + [x])[..|s|] == s;
  }

  lemma InsertSnoc<T>(s: seq<T>, v: T, k: nat, x: T)
    requires k <= |s|
    ensures Insert(s + [x], v, k) == Insert(s, v, k) + [x]
  {
    assert (s + [x])[..k] == s[..k] && (s + [x])[k..] == s[k..] + [x];
  }

  lemma InsertLast<T>(s: seq<T>, v: T)
    ensures Insert(s, v, |s|) == s + [v]
  {
    assert s[..|s|] == s && s[|s|..] == [];
  }

  lemma DistinctSnoc<T>(s: seq<T>, x: T)
    ensures Distinct(s + [x]) <==> Distinct(s) && x !in s
  {
    var t := s + [x];
    if Distinct(t) {
      assert forall i | 0 <= i < |s| :: t[i] == s[i] && t[i] != t[|s|];
    }
  }

  lemma {:induction false} WithoutIsDistinct(desired: seq<string>, id: string)
    requires Distinct(desired)
    ensures Distinct(Without(desired, id))
  {
    hide Distinct;
    if desired == [] {
      NothingIsDistinct();
    } else {
      var before, last := desired[..|desired| - 1], desired[|desired| - 1];
      assert desired == before + [last];
      DistinctSnoc(before, last);
      WithoutIsDistinct(before, id);
      WithoutSnoc(before, last, id);
      DistinctSnoc(Without(before, id), last);
    }
  }

  lemma NothingIsDistinct()
    ensures Distinct<string>([])
    ensures forall id: string :: Without([], id) == []
  {
  }

  lemma {:induction false} WithoutAbsent(desired: seq<string>, id: string)
    requires id !in desired
    ensures Without(desired, id) == desired && CurrentSlot(desired, id) == -1
  {
    if desired != [] {
      var before, last := desired[..|desired| - 1], desired[|desired| - 1];
      assert desired == before + [last] && last in desired;
      WithoutAbsent(before, id);
    }
  }

  /** Taking id out of distinct ids and putting it back at its slot. */
  lemma {:induction false} TakeOut(desired: seq<string>, id: string)
    requires Distinct(desired) && id in desired
    ensures desired == Insert(Without(desired, id), id, CurrentSlot(desired, id))
  {
    var before, last := desired[..|desired| - 1], desired[|desired| - 1];
    assert desired == before + [last];
    DistinctSnoc(before, last);
    WithoutSnoc(before, last, id);
    hide Without, CurrentSlot, Insert, Distinct;
    if last == id {
      WithoutAbsent(before, id);
      InsertLast(before, id);
    } else {
      TakeOut(before, id);
      InsertSnoc(Without(before, id), id, CurrentSlot(before, id), last);
    }
  }

  /** How far a slot is from the current one; from the front when there is none. */
  function Gap(cur: int, slot: int): int {
    if cur < 0 then slot else if slot <= cur then cur - slot else slot - cur
  }

  lemma Nearest(lo: nat, hi: nat, cur: int, slot: int)
    requires lo <= hi && slot == if cur < 0 || cur < lo then lo else if cur > hi then hi else cur
    ensures lo <= slot <= hi && forall j | lo <= j <= hi :: Gap(cur, slot) <= Gap(cur, j)
  {
  }

  lemma EnoughShared(base: seq<string>, desired: seq<string>, bi: nat)
    requires Distinct(base) && Distinct(desired) && bi < |base|
    ensures SharedCount(desired, base[..bi]) <= SharedCount(base, Without(desired, base[bi]))
  {
    var rest, front := Without(desired, base[bi]), base[..bi];
    WithoutIsDistinct(desired, base[bi]);
    CountIsCardinality(base, rest);
    CountIsCardinality(desired, front);
    assert forall x | x in front :: x in base && x != base[bi];
    hide SharedCount, Without;
    SetInclusion(SharedSet(desired, front), SharedSet(base, rest));
  }

  /** For distinct ids, rankSlot's choice has exactly the baseline number of shared objects in front,
      keeps the current slot when that qualifies, and otherwise is the qualifying slot nearest to it
      (the first one for an id that is not there). */
  lemma RankSlotQualifies(base: seq<string>, desired: seq<string>, bi: nat)
    requires Distinct(base) && Distinct(desired) && bi < |base|
    ensures var id := base[bi];
            var rest, cur, slot := Without(desired, id), CurrentSlot(desired, id), RankSlot(base, desired, id);
            var k := SharedCount(desired, base[..bi]);
            && SharedCount(base, rest[..slot]) == k
            && (forall j | 0 <= j <= |rest| && SharedCount(base, rest[..j]) == k :: Gap(cur, slot) <= Gap(cur, j))
  {
    var id := base[bi];
    var rest, cur := Without(desired, id), CurrentSlot(desired, id);
    var k := Predecessors(base, desired, id);
    PredecessorsAt(base, desired, bi);
    EnoughShared(base, desired, bi);
    ScanFindsRange(base, rest, k, 0, 0, 0);
    var (lo, hi) := Scan(base, rest, k, 0, 0, 0);
    Nearest(lo, hi, cur, RankSlot(base, desired, id));
  }
}
