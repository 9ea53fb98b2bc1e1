/** Inversions of a list of ids against its baseline, and what they have to do with the Position rows
    of the review: there is a row exactly when two shared objects are out of order, and then some
    object with a row has a better slot than its own. */
module Reorder {
  import opened Placement

  /** Shared objects stand in baseline order. */
  ghost predicate InOrder(base: seq<string>, s: seq<string>) {
    forall i, j | 0 <= i < j < |s| && s[i] in base && s[j] in base :: Ranks(base)[s[i]] < Ranks(base)[s[j]]
  }

  /** The pairs of shared objects in the wrong order. */
  function Inversions(rank: map<string, nat>, s: seq<string>): nat {
    if s == [] then 0
    else
      var before, last := s[..|s| - 1], s[|s| - 1];
      Inversions(rank, before) + if last in rank then Later(rank, rank[last], before) else 0
  }

  lemma {:induction false} LaterSplit(rank: map<string, nat>, own: nat, a: seq<string>, b: seq<string>)
    ensures Later(rank, own, a + b) == Later(rank, own, a) + Later(rank, own, b)
  {
    if b == [] {
      assert a + b == a;
    } else {
      LaterSplit(rank, own, a, b[..|b| - 1]);
      assert (a + b)[..|a + b| - 1] == a + b[..|b| - 1];
    }
  }

  lemma LaterInsert(rank: map<string, nat>, own: nat, rest: seq<string>, id: string, k: nat)
    requires k <= |rest|
    ensures Later(rank, own, Insert(rest, id, k)) ==
            Later(rank, own, rest) + if id in rank && rank[id] >= own then 1 else 0
  {
    LaterSplit(rank, own, rest[..k] + [id], rest[k..]);
    LaterSplit(rank, own, rest[..k], [id]);
    LaterSplit(rank, own, rest[..k], rest[k..]);
    assert rest[..k] + rest[k..] == rest;
    assert [id][..0] == [];
  }

  lemma InversionsAppend(rank: map<string, nat>, s: seq<string>, x: string)
    ensures Inversions(rank, s + [x]) == Inversions(rank, s) + if x in rank then Later(rank, rank[x], s) else 0
  {
  }

  lemma MisplacedAppend(rank: map<string, nat>, own: nat, s: seq<string>, x: string, k: nat)
    requires k <= |s|
    ensures Misplaced(rank, own, s + [x], k) ==
            Misplaced(rank, own, s, k) + if x in rank && rank[x] < own then 1 else 0
  {
    assert (s + [x])[..k] == s[..k] && (s + [x])[k..] == s[k..] + [x];
    EarlierSplit(rank, own, s[k..], [x]);
    assert [x][..0] == [];
  }

  /** Putting id at slot k adds one inversion for each object it leaves on its wrong side. */
  lemma {:induction false} InversionsInsert(rank: map<string, nat>, rest: seq<string>, id: string, k: nat)
    requires k <= |rest| && id in rank && id !in rest
    requires forall x | x in rank && x != id :: rank[x] != rank[id]
    ensures Inversions(rank, Insert(rest, id, k)) == Inversions(rank, rest) + Misplaced(rank, rank[id], rest, k)
  {
    hide Inversions, Insert;
    if k == |rest| {
      InsertLast(rest, id);
      InversionsAppend(rank, rest, id);
      assert rest[..k] == rest && rest[k..] == [];
    } else {
      hide Misplaced;
      var before, last := rest[..|rest| - 1], rest[|rest| - 1];
      assert rest == before + [last] && last in rest;
      InversionsInsert(rank, before, id, k);
      InsertSnoc(before, id, k, last);
      InversionsAppend(rank, Insert(before, id, k), last);
      InversionsAppend(rank, before, last);
      MisplacedAppend(rank, rank[id], before, last, k);
      if last in rank {
        LaterInsert(rank, rank[last], before, id, k);
      }
    }
  }

  /** No inversion is the same as being in order. */
  lemma {:induction false} NoInversions(base: seq<string>, s: seq<string>)
    requires Distinct(s)
    ensures Inversions(Ranks(base), s) == 0 <==> InOrder(base, s)
  {
    if s != [] {
      var rank, before, last := Ranks(base), s[..|s| - 1], s[|s| - 1];
      assert s == before + [last];
      DistinctSnoc(before, last);
      NoInversions(base, before);
      InOrderSnoc(base, before, last);
      if last in base { NoneLater(rank, rank[last], before); }
      hide InOrder, Later, Ranks, Distinct;
    }
  }

  lemma InOrderSnoc(base: seq<string>, s: seq<string>, x: string)
    requires x !in s
    ensures InOrder(base, s + [x]) <==>
            InOrder(base, s) &&
            (x in base ==> forall i | 0 <= i < |s| && s[i] in base :: Ranks(base)[s[i]] < Ranks(base)[x])
  {
    var t := s + [x];
    hide Ranks;
    if InOrder(base, t) {
      assert forall i | 0 <= i < |s| :: t[i] == s[i];
      assert t[|s|] == x;
    }
  }

  lemma {:induction false} NoneLater(rank: map<string, nat>, own: nat, s: seq<string>)
    ensures Later(rank, own, s) == 0 <==> forall i | 0 <= i < |s| && s[i] in rank :: rank[s[i]] < own
  {
    if s != [] {
      NoneLater(rank, own, s[..|s| - 1]);
    }
  }

  lemma {:induction false} NoneEarlier(rank: map<string, nat>, own: nat, s: seq<string>)
    ensures Earlier(rank, own, s) == 0 <==> forall i | 0 <= i < |s| && s[i] in rank :: rank[s[i]] >= own
  {
    if s != [] {
      NoneEarlier(rank, own, s[..|s| - 1]);
    }
  }

  /** In an ordered rest some slot misplaces nothing. */
  lemma {:induction false} OrderedSlot(base: seq<string>, rest: seq<string>, own: nat, k: nat) returns (slot: nat)
    requires InOrder(base, rest) && k <= |rest|
    requires forall i | k <= i < |rest| && rest[i] in base :: Ranks(base)[rest[i]] >= own
    ensures slot <= |rest| && Misplaced(Ranks(base), own, rest, slot) == 0
    decreases k
  {
    var rank := Ranks(base);
    hide Ranks, Earlier, Later;
    if k == 0 || (rest[k - 1] in base && rank[rest[k - 1]] < own) {
      slot := k;
      NoneLater(rank, own, rest[..k]);
      NoneEarlier(rank, own, rest[k..]);
      hide InOrder;
      assert Misplaced(rank, own, rest, k) == Later(rank, own, rest[..k]) + Earlier(rank, own, rest[k..]);
    } else {
      slot := OrderedSlot(base, rest, own, k - 1);
    }
  }

  // ---- Position rows ------------------------------------------------------------------------------

  /** The differ shows a Position row for id. */
  predicate Moved(base: seq<string>, s: seq<string>, id: string) {
    id in base && id in s && RelativeOrder(base, s)[id] != RelativeOrder(s, base)[id]
  }

  lemma MovedAt(base: seq<string>, s: seq<string>, r: nat, i: nat)
    requires Distinct(base) && Distinct(s) && r < |base| && i < |s| && base[r] == s[i]
    ensures Moved(base, s, s[i]) <==> SharedCount(s, base[..r]) != SharedCount(base, s[..i])
  {
    RelativeOrderAt(base, s, r);
    RelativeOrderAt(s, base, i);
  }

  /** Of two neighbours in the wrong order (nothing shared between them) either has a slot better than
      its own: just past the other. */
  lemma LeftNeighbourImproves(base: seq<string>, s: seq<string>, i: nat, j: nat)
    requires Distinct(s) && i < j < |s| && s[i] in base && s[j] in base
    requires Ranks(base)[s[i]] > Ranks(base)[s[j]]
    requires forall m | i < m < j :: s[m] !in base
    ensures RestoreSlot(base, s, s[i]) != CurrentSlot(s, s[i])
  {
    var rank, rest := Ranks(base), s[..i] + s[i + 1..];
    SlotAt(s, i);
    SlideOverUnshared(rank, rank[s[i]], rest, i, j - 1);
    MisplacedSlides(rank, rank[s[i]], rest, j - 1);
    RestoreSlotIsOptimal(base, s, s[i]);
  }

  lemma RightNeighbourImproves(base: seq<string>, s: seq<string>, i: nat, j: nat)
    requires Distinct(s) && i < j < |s| && s[i] in base && s[j] in base
    requires Ranks(base)[s[i]] > Ranks(base)[s[j]]
    requires forall m | i < m < j :: s[m] !in base
    ensures RestoreSlot(base, s, s[j]) != CurrentSlot(s, s[j])
  {
    var rank, rest := Ranks(base), s[..j] + s[j + 1..];
    SlotAt(s, j);
    SlideOverUnshared(rank, rank[s[j]], rest, i + 1, j);
    MisplacedSlides(rank, rank[s[j]], rest, i);
    RestoreSlotIsOptimal(base, s, s[j]);
  }

  lemma {:induction false} SlideOverUnshared(rank: map<string, nat>, own: nat, rest: seq<string>, i: nat, j: nat)
    requires i <= j <= |rest| && forall m | i <= m < j :: rest[m] !in rank
    ensures Misplaced(rank, own, rest, i) == Misplaced(rank, own, rest, j)
    decreases j - i
  {
    if i < j {
      MisplacedSlides(rank, own, rest, i);
      SlideOverUnshared(rank, own, rest, i + 1, j);
    }
  }

  lemma {:induction false} SlotAt(s: seq<string>, i: nat)
    requires Distinct(s) && i < |s|
    ensures Without(s, s[i]) == s[..i] + s[i + 1..] && CurrentSlot(s, s[i]) == i
  {
    var before, last := s[..|s| - 1], s[|s| - 1];
    assert s == before + [last];
    DistinctSnoc(before, last);
    WithoutSnoc(before, last, s[i]);
    hide Distinct, Without, CurrentSlot;
    if i == |s| - 1 {
      WithoutAbsent(before, last);
      assert s[..i] + s[i + 1..] == before;
    } else {
      SlotAt(before, i);
      assert before[i] == s[i] && s[i] in before;
      CutSnoc(before, i, last);
    }
  }

  lemma CutSnoc(s: seq<string>, i: nat, x: string)
    requires i < |s|
    ensures (s[..i] + s[i + 1..]) + [x] == (s + [x])[..i] + (s + [x])[i + 1..]
  {
    assert (s + [x])[..i] == s[..i] && (s + [x])[i + 1..] == s[i + 1..] + [x];
  }

  /** Of two neighbours in the wrong order at least one is shown as moved. */
  lemma NeighbourIsMoved(base: seq<string>, s: seq<string>, i: nat, j: nat)
    requires Distinct(base) && Distinct(s) && i < j < |s| && s[i] in base && s[j] in base
    requires Ranks(base)[s[i]] > Ranks(base)[s[j]]
    requires forall m | i < m < j :: s[m] !in base
    ensures Moved(base, s, s[i]) || Moved(base, s, s[j])
  {
    var ri, rj := Ranks(base)[s[i]], Ranks(base)[s[j]];
    MovedAt(base, s, ri, i);
    MovedAt(base, s, rj, j);
    hide Moved, SharedCount, Ranks, Distinct;
    SharedMonotone(s, base, rj, ri);
    assert base[rj] in s;
    NothingBetween(base, s, i + 1, j);
    SharedCountNext(base, s, i);
  }

  lemma {:induction false} NothingBetween(other: seq<string>, s: seq<string>, i: nat, j: nat)
    requires i <= j <= |s| && forall m | i <= m < j :: s[m] !in other
    ensures SharedCount(other, s[..i]) == SharedCount(other, s[..j])
    decreases j - i
  {
    if i < j {
      NothingBetween(other, s, i, j - 1);
      assert s[..j][..j - 1] == s[..j - 1];
    }
  }

  /** Out of order somewhere means out of order between neighbours. */
  lemma {:induction false} WrongNeighbours(base: seq<string>, s: seq<string>, i: nat, j: nat) returns (l: nat, r: nat)
    requires i < j < |s| && s[i] in base && s[j] in base && Ranks(base)[s[i]] > Ranks(base)[s[j]]
    ensures l < r < |s| && s[l] in base && s[r] in base && Ranks(base)[s[l]] > Ranks(base)[s[r]]
    ensures forall m | l < m < r :: s[m] !in base
    decreases j - i
  {
    if m :| i < m < j && s[m] in base {
      if Ranks(base)[s[i]] > Ranks(base)[s[m]] {
        l, r := WrongNeighbours(base, s, i, m);
      } else {
        l, r := WrongNeighbours(base, s, m, j);
      }
    } else {
      l, r := i, j;
    }
  }

  /** When shared objects are out of order, some object shown as moved has a better slot than its own. */
  lemma MovedCanImprove(base: seq<string>, s: seq<string>) returns (id: string)
    requires Distinct(base) && Distinct(s) && !InOrder(base, s)
    ensures Moved(base, s, id) && RestoreSlot(base, s, id) != CurrentSlot(s, id)
  {
    hide RelativeOrder, RestoreSlot, Ranks;
    var i, j :| 0 <= i < j < |s| && s[i] in base && s[j] in base && !(Ranks(base)[s[i]] < Ranks(base)[s[j]]);
    assert base[Ranks(base)[s[i]]] != base[Ranks(base)[s[j]]];
    var l, r := WrongNeighbours(base, s, i, j);
    NeighbourIsMoved(base, s, l, r);
    LeftNeighbourImproves(base, s, l, r);
    RightNeighbourImproves(base, s, l, r);
    id := if Moved(base, s, s[l]) then s[l] else s[r];
  }

  lemma SameInFront(base: seq<string>, s: seq<string>, r: nat, i: nat)
    requires Distinct(base) && Distinct(s) && InOrder(base, s) && r < |base| && i < |s| && base[r] == s[i]
    ensures SharedSet(s, base[..r]) == SharedSet(base, s[..i])
  {
    assert forall x | x in base :: base[Ranks(base)[x]] == x;
    hide Ranks;
  }

  /** In order, nothing is shown as moved. */
  lemma InOrderUnmoved(base: seq<string>, s: seq<string>, id: string)
    requires Distinct(base) && Distinct(s) && InOrder(base, s)
    ensures !Moved(base, s, id)
  {
    if id in base && id in s {
      var r :| 0 <= r < |base| && base[r] == id;
      var i :| 0 <= i < |s| && s[i] == id;
      MovedAt(base, s, r, i);
      SameInFront(base, s, r, i);
      assert Distinct(base[..r]) && Distinct(s[..i]);
      hide Moved, InOrder, SharedCount, SharedSet, Distinct;
      CountIsCardinality(s, base[..r]);
      CountIsCardinality(base, s[..i]);
    }
  }

  /** No Position row at all exactly when the shared objects stand in baseline order. */
  lemma NoRowsMeansInOrder(base: seq<string>, s: seq<string>)
    requires Distinct(base) && Distinct(s)
    ensures (forall id :: !Moved(base, s, id)) <==> InOrder(base, s)
  {
    if InOrder(base, s) {
      forall id
        ensures !Moved(base, s, id)
      {
        InOrderUnmoved(base, s, id);
      }
    } else {
      var id := MovedCanImprove(base, s);
    }
  }

  /** The shared objects of ss, in the order of ss. */
  function Shared(ss: seq<string>, other: seq<string>): (r: seq<string>)
    ensures |r| == SharedCount(other, ss)
    ensures forall x :: x in r <==> x in ss && x in other
  {
    if ss == [] then []
    else Shared(ss[..|ss| - 1], other) + if ss[|ss| - 1] in other then [ss[|ss| - 1]] else []
  }

  lemma {:induction false} SharedAt(ss: seq<string>, other: seq<string>, i: nat)
    requires i < |ss| && ss[i] in other
    ensures SharedCount(other, ss[..i]) < |Shared(ss, other)|
    ensures Shared(ss, other)[SharedCount(other, ss[..i])] == ss[i]
  {
    var before := ss[..|ss| - 1];
    if i < |ss| - 1 {
      SharedAt(before, other, i);
      assert before[..i] == ss[..i];
    }
  }

  lemma {:induction false} SharedIndex(ss: seq<string>, other: seq<string>, m: nat) returns (i: nat)
    requires m < |Shared(ss, other)|
    ensures i < |ss| && ss[i] in other && SharedCount(other, ss[..i]) == m && Shared(ss, other)[m] == ss[i]
  {
    var before := ss[..|ss| - 1];
    if m < |Shared(before, other)| {
      i := SharedIndex(before, other, m);
      assert before[..i] == ss[..i];
    } else {
      i := |ss| - 1;
    }
  }

  lemma {:induction false} SharedIsDistinct(ss: seq<string>, other: seq<string>)
    requires Distinct(ss)
    ensures Distinct(Shared(ss, other))
  {
    if ss != [] {
      var before, last := ss[..|ss| - 1], ss[|ss| - 1];
      assert ss == before + [last];
      DistinctSnoc(before, last);
      DistinctSnoc(Shared(before, other), last);
      hide Distinct;
      SharedIsDistinct(before, other);
      assert Shared(before, other) + [] == Shared(before, other);
    }
  }

  /** Exactly when the shared objects read the same in both states is no list shown as moved. */
  lemma NoRowsMeansSameOrder(base: seq<string>, s: seq<string>)
    requires Distinct(base) && Distinct(s)
    ensures (forall id :: !Moved(base, s, id)) <==> Shared(base, s) == Shared(s, base)
  {
    hide Moved, Shared, SharedCount, Distinct;
    if forall id :: !Moved(base, s, id) {
      UnmovedReadsTheSame(base, s);
    } else {
      var id :| Moved(base, s, id);
      MovedReadsOtherwise(base, s, id);
    }
  }

  lemma SharedAreAsMany(base: seq<string>, s: seq<string>)
    requires Distinct(base) && Distinct(s)
    ensures |Shared(base, s)| == |Shared(s, base)|
  {
    CountIsCardinality(s, base);
    CountIsCardinality(base, s);
    assert SharedSet(s, base) == SharedSet(base, s);
  }

  lemma UnmovedReadsTheSame(base: seq<string>, s: seq<string>)
    requires Distinct(base) && Distinct(s) && forall id :: !Moved(base, s, id)
    ensures Shared(base, s) == Shared(s, base)
  {
    SharedAreAsMany(base, s);
    hide Moved, Shared, SharedCount, Distinct;
    forall m | 0 <= m < |Shared(base, s)|
      ensures Shared(base, s)[m] == Shared(s, base)[m]
    {
      var r := SharedIndex(base, s, m);
      var i :| 0 <= i < |s| && s[i] == base[r];
      MovedAt(base, s, r, i);
      SharedAt(s, base, i);
    }
  }

  lemma MovedReadsOtherwise(base: seq<string>, s: seq<string>, id: string)
    requires Distinct(base) && Distinct(s) && Moved(base, s, id)
    ensures Shared(base, s) != Shared(s, base)
  {
    var r :| 0 <= r < |base| && base[r] == id;
    var i :| 0 <= i < |s| && s[i] == id;
    MovedAt(base, s, r, i);
    SharedAt(base, s, r);
    SharedAt(s, base, i);
    SharedIsDistinct(s, base);
    hide Moved, Shared, SharedCount;
  }
}
