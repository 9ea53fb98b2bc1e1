/** The routing lists of internal/changeset: what the review reports (diffRoutingLists) and what its
    undos do (undoOrdered, undoRoutingPosition, undoReportedOnce, undoReported). Everything the review
    compares in a list is one opaque body; the two refresh stamps are what it does not compare. */
module Undo {
  import opened Placement
  import opened Reorder

  datatype RoutingList = RoutingList(id: string, body: string, cidrAt: int, domainAt: int)

  /** One list's rows. The fields of a modified list are one row here: the undos read only the id. */
  datatype Row = Added(id: string) | Modified(id: string) | Position(id: string, before: nat, after: nat)
               | Removed(id: string)

  /** rankSlot for one list's own Undo, restoreIndex for a batch. */
  datatype SlotRule = ByRank | ByRestore

  function Ids(ls: seq<RoutingList>): (ids: seq<string>)
    ensures |ids| == |ls| && forall i | 0 <= i < |ls| :: ids[i] == ls[i].id
  {
    seq(|ls|, i requires 0 <= i < |ls| => ls[i].id)
  }

  function IndexOf(ls: seq<RoutingList>, id: string): (i: int)
    ensures -1 <= i < |ls|
    ensures i >= 0 ==> ls[i].id == id && forall j | 0 <= j < i :: ls[j].id != id
    ensures i < 0 <==> id !in Ids(ls)
  {
    if ls == [] then -1
    else
      var i := IndexOf(ls[..|ls| - 1], id);
      if i >= 0 then i else if ls[|ls| - 1].id == id then |ls| - 1 else -1
  }

  method FindIndex(ls: seq<RoutingList>, id: string) returns (i: int)
    ensures i == IndexOf(ls, id)
  {
    i := 0;
    while i < |ls|
      invariant 0 <= i <= |ls| && forall j | 0 <= j < i :: ls[j].id != id
    {
      if ls[i].id == id {
        return i;
      }
      i := i + 1;
    }
    return -1;
  }

  // ---- The review ---------------------------------------------------------------------------------

  /** One list's rows, against the baseline list of its id (the last one, should an id repeat). */
  function RowsOf(base: seq<RoutingList>, desired: seq<RoutingList>, d: RoutingList): seq<Row>
    requires d in desired
  {
    var byID := Ranks(Ids(base));
    if d.id !in byID then [Added(d.id)]
    else
      var before, after := RelativeOrder(Ids(base), Ids(desired)), RelativeOrder(Ids(desired), Ids(base));
      assert desired[IndexOf(desired, d.id)].id in Ids(desired);
      (if base[byID[d.id]].body != d.body then [Modified(d.id)] else []) +
      (if before[d.id] != after[d.id] then [Position(d.id, before[d.id], after[d.id])] else [])
  }

  function DesiredRows(base: seq<RoutingList>, desired: seq<RoutingList>, n: nat): seq<Row>
    requires n <= |desired|
  {
    if n == 0 then [] else DesiredRows(base, desired, n - 1) + RowsOf(base, desired, desired[n - 1])
  }

  function RemovedRows(base: seq<RoutingList>, desired: seq<RoutingList>, n: nat): seq<Row>
    requires n <= |base|
  {
    if n == 0 then []
    else RemovedRows(base, desired, n - 1) + if base[n - 1].id in Ids(desired) then [] else [Removed(base[n - 1].id)]
  }

  function Diff(base: seq<RoutingList>, desired: seq<RoutingList>): seq<Row> {
    DesiredRows(base, desired, |desired|) + RemovedRows(base, desired, |base|)
  }

  method DiffOne(base: seq<RoutingList>, desired: seq<RoutingList>, d: RoutingList, byID: map<string, nat>,
                 relBase: map<string, nat>, relDesired: map<string, nat>) returns (rows: seq<Row>)
    requires d in desired && byID == Ranks(Ids(base))
    requires relBase == RelativeOrder(Ids(base), Ids(desired)) && relDesired == RelativeOrder(Ids(desired), Ids(base))
    ensures rows == RowsOf(base, desired, d)
  {
    hide Ranks, RelativeOrder;
    if d.id !in byID {
      return [Added(d.id)];
    }
    rows := [];
    if base[byID[d.id]].body != d.body {
      rows := [Modified(d.id)];
    }
    assert desired[IndexOf(desired, d.id)].id in Ids(desired);
    var op := relBase[d.id];
    if op != relDesired[d.id] {
      rows := rows + [Position(d.id, op, relDesired[d.id])];
    }
  }

  method DiffRemoved(base: seq<RoutingList>, desired: seq<RoutingList>) returns (rows: seq<Row>)
    ensures rows == RemovedRows(base, desired, |base|)
  {
    rows := [];
    for i := 0 to |base|
      invariant rows == RemovedRows(base, desired, i)
    {
      if base[i].id !in Ids(desired) {
        rows := rows + [Removed(base[i].id)];
      }
    }
  }

  /** diffRoutingLists. */
  method DiffRoutingLists(base: seq<RoutingList>, desired: seq<RoutingList>) returns (out: seq<Row>)
    ensures out == Diff(base, desired)
  {
    hide RowsOf, RemovedRows, RelativeOrder, Ids, Ranks;
    var byID := RankLoop(Ids(base));
    var relBase := RelativeOrderLoop(Ids(base), Ids(desired));
    var relDesired := RelativeOrderLoop(Ids(desired), Ids(base));
    out := [];
    for i := 0 to |desired|
      invariant out == DesiredRows(base, desired, i)
    {
      var mine := DiffOne(base, desired, desired[i], byID, relBase, relDesired);
      out := out + mine;
    }
    var removed := DiffRemoved(base, desired);
    out := out + removed;
  }

  // ---- One list's undo ----------------------------------------------------------------------------

  /** The baseline list as it goes back: a fetch that did happen keeps its stamp. */
  function KeepRefreshClock(b: RoutingList, cur: RoutingList): RoutingList {
    b.(cidrAt := if cur.cidrAt != 0 then cur.cidrAt else b.cidrAt,
       domainAt := if cur.domainAt != 0 then cur.domainAt else b.domainAt)
  }

  function Slot(rule: SlotRule, base: seq<string>, desired: seq<string>, id: string): (slot: nat)
    ensures slot <= |Without(desired, id)|
  {
    if rule == ByRank then RankSlot(base, desired, id) else RestoreSlot(base, desired, id)
  }

  function Drop<T>(s: seq<T>, i: nat): (r: seq<T>)
    requires i < |s|
    ensures |r| == |s| - 1
  {
    s[..i] + s[i + 1..]
  }

  lemma {:induction false} WithoutIsShorter(s: seq<string>, id: string)
    requires id in s
    ensures |Without(s, id)| < |s|
  {
    if s[|s| - 1] != id {
      WithoutIsShorter(s[..|s| - 1], id);
    }
  }

  lemma RankIsIndex(ls: seq<RoutingList>, id: string)
    requires Distinct(Ids(ls)) && id in Ids(ls)
    ensures Ranks(Ids(ls))[id] == IndexOf(ls, id)
  {
    var r, i := Ranks(Ids(ls))[id], IndexOf(ls, id);
    assert Ids(ls)[r] == id == Ids(ls)[i];
    hide Ranks, IndexOf;
  }

  /** undoRoutingObject: the lists after the undo, and whether there was anything to undo. */
  function UndoList(base: seq<RoutingList>, desired: seq<RoutingList>, id: string, rule: SlotRule)
    : (r: (seq<RoutingList>, bool))
    ensures !r.1 ==> r.0 == desired
  {
    var bi, di := IndexOf(base, id), IndexOf(desired, id);
    if bi < 0 && di < 0 then (desired, false)
    else if bi < 0 then (Drop(desired, di), true)
    else
      var target := Slot(rule, Ids(base), Ids(desired), id);
      if di < 0 then
        (Insert(desired, base[bi], target), true)
      else if target == di && base[bi].body == desired[di].body then (desired, false)
      else
        WithoutIsShorter(Ids(desired), id);
        (Insert(Drop(desired, di), KeepRefreshClock(base[bi], desired[di]), target), true)
  }

  /** undoOrdered with insertAt, on routing lists. */
  method UndoOrdered(base: seq<RoutingList>, desired: seq<RoutingList>, id: string, rule: SlotRule)
    returns (out: seq<RoutingList>, ok: bool)
    ensures (out, ok) == UndoList(base, desired, id, rule)
  {
    hide RankSlot, RestoreSlot, Without, CurrentSlot, KeepRefreshClock;
    var bi := FindIndex(base, id);
    var di := FindIndex(desired, id);
    if bi < 0 && di < 0 {
      return desired, false;
    }
    if bi < 0 {
      return desired[..di] + desired[di + 1..], true;
    }
    var target;
    if rule == ByRank {
      target := RankSlotLoop(Ids(base), Ids(desired), id);
    } else {
      target := RestoreIndex(Ids(base), Ids(desired), id);
    }
    if di >= 0 && target == di && base[bi].body == desired[di].body {
      return desired, false;
    }
    var rest := CopyWithout(desired, di);
    if di >= 0 {
      WithoutIsShorter(Ids(desired), id);
      out := InsertAt(rest, KeepRefreshClock(base[bi], desired[di]), target);
    } else {
      out := InsertAt(rest, base[bi], target);
    }
    ok := true;
  }

  method CopyWithout(ls: seq<RoutingList>, di: int) returns (out: seq<RoutingList>)
    requires -1 <= di < |ls|
    ensures out == if di < 0 then ls else Drop(ls, di)
  {
    out := [];
    for i := 0 to |ls|
      invariant out == if 0 <= di < i then ls[..di] + ls[di + 1..i] else ls[..i]
    {
      if i != di {
        out := out + [ls[i]];
        assert ls[..i] + [ls[i]] == ls[..i + 1];
        assert 0 <= di < i ==> ls[di + 1..i] + [ls[i]] == ls[di + 1..i + 1];
      } else {
        assert ls[i + 1..i + 1] == [];
      }
    }
    assert ls[..|ls|] == ls;
    assert di >= 0 ==> ls[di + 1..|ls|] == ls[di + 1..];
  }

  /** Grow by one, shift the tail right, put v in: an index out of range means the end. */
  method InsertAt<T>(ss: seq<T>, v: T, i: int) returns (out: seq<T>)
    ensures out == Insert(ss, v, if 0 <= i <= |ss| then i else |ss|)
  {
    var at := if i < 0 || i > |ss| then |ss| else i;
    out := ss + [v];
    var j := |ss|;
    while j > at
      invariant at <= j <= |ss| && |out| == |ss| + 1
      invariant forall m | 0 <= m < |ss| :: out[if m < j then m else m + 1] == ss[m]
    {
      out := out[j := out[j - 1]];
      j := j - 1;
    }
    out := out[at := v];
    assert forall m | 0 <= m < |ss| :: out[if m < at then m else m + 1] == ss[m];
    assert out[at + 1..] == ss[at..] by {
      forall m | 0 <= m < |ss| - at
        ensures out[at + 1..][m] == ss[at..][m]
      {
        assert out[if at + m < at then at + m else at + m + 1] == ss[at + m];
      }
    }
    assert out[..at] == ss[..at] by {
      forall m | 0 <= m < at
        ensures out[m] == ss[m]
      {
        assert out[if m < at then m else m + 1] == ss[m];
      }
    }
  }

  /** undoRoutingPosition: the move alone, the content edits stay pending. */
  function UndoPosition(base: seq<RoutingList>, desired: seq<RoutingList>, id: string): (r: (seq<RoutingList>, bool)) {
    var di := IndexOf(desired, id);
    if di < 0 || IndexOf(base, id) < 0 then (desired, false)
    else
      var target := RankSlot(Ids(base), Ids(desired), id);
      if target == di then (desired, false)
      else
        WithoutIsShorter(Ids(desired), id);
        (Insert(Drop(desired, di), desired[di], target), true)
  }

  lemma IdsOfInsert(ls: seq<RoutingList>, v: RoutingList, k: nat)
    requires k <= |ls|
    ensures Ids(Insert(ls, v, k)) == Insert(Ids(ls), v.id, k)
  {
  }

  /** For distinct ids, where the list stands and what is left without it. */
  lemma IdsOfDrop(ls: seq<RoutingList>, id: string)
    requires Distinct(Ids(ls)) && id in Ids(ls)
    ensures var i := IndexOf(ls, id);
            Ids(Drop(ls, i)) == Without(Ids(ls), id) && CurrentSlot(Ids(ls), id) == i
  {
    var i := IndexOf(ls, id);
    hide IndexOf, Without, CurrentSlot;
    SlotAt(Ids(ls), i);
    IdsAfterDrop(ls, i);
  }

  lemma IdsAfterDrop(ls: seq<RoutingList>, i: nat)
    requires i < |ls|
    ensures Ids(Drop(ls, i)) == Ids(ls)[..i] + Ids(ls)[i + 1..]
  {
  }

  lemma {:induction false} WithoutInsert(rest: seq<string>, id: string, k: nat)
    requires k <= |rest| && id !in rest
    ensures Without(Insert(rest, id, k), id) == rest && CurrentSlot(Insert(rest, id, k), id) == k
  {
    hide Without, CurrentSlot, Insert;
    if k == |rest| {
      InsertLast(rest, id);
      WithoutAbsent(rest, id);
      WithoutSnoc(rest, id, id);
    } else {
      var before, last := rest[..|rest| - 1], rest[|rest| - 1];
      assert rest == before + [last] && last in rest;
      WithoutInsert(before, id, k);
      InsertSnoc(before, id, k, last);
      WithoutSnoc(Insert(before, id, k), last, id);
    }
  }

  lemma InsertKeepsDistinct<T>(s: seq<T>, v: T, k: nat)
    requires Distinct(s) && v !in s && k <= |s|
    ensures Distinct(Insert(s, v, k)) && forall x :: x in Insert(s, v, k) <==> x in s || x == v
  {
  }

  /** What an undo does, by where the list stands in the two states (-1: nowhere). Only the list of the id changes: one
      the baseline lacks is taken out; one it has goes to its slot, with the baseline's content and whatever fetch
      stamps the list has by now; and the undo is refused, changing nothing, when it would change nothing. */
  lemma UndoRestores(base: seq<RoutingList>, desired: seq<RoutingList>, id: string, rule: SlotRule, bi: int, di: int)
    requires Distinct(Ids(base)) && Distinct(Ids(desired))
    requires if bi == -1 then id !in Ids(base) else 0 <= bi < |base| && base[bi].id == id
    requires if di == -1 then id !in Ids(desired) else 0 <= di < |desired| && desired[di].id == id
    ensures var (out, ok) := UndoList(base, desired, id, rule);
            var k := if rule == ByRank then RankSlot(Ids(base), Ids(desired), id)
                     else RestoreSlot(Ids(base), Ids(desired), id);
            var rest := if di == -1 then desired else desired[..di] + desired[di + 1..];
            && (ok <==> if bi == -1 then di != -1 else di == -1 || k != di || base[bi].body != desired[di].body)
            && (!ok ==> out == desired) && (ok && bi == -1 ==> out == rest)
            && (ok && bi != -1 ==>
                  && k < |out| == |rest| + 1 && out[..k] + out[k + 1..] == rest
                  && out[k].id == id && out[k].body == base[bi].body
                  && out[k].cidrAt ==
                     (if di != -1 && desired[di].cidrAt != 0 then desired[di].cidrAt else base[bi].cidrAt)
                  && out[k].domainAt ==
                     (if di != -1 && desired[di].domainAt != 0 then desired[di].domainAt else base[bi].domainAt))
  {
    hide IndexOf, RankSlot, RestoreSlot, Without, CurrentSlot, Distinct, Insert, Ids;
    StandsAt(base, id, bi);
    StandsAt(desired, id, di);
    var k := Slot(rule, Ids(base), Ids(desired), id);
    if bi != -1 && di == -1 {
      NothingWithout(desired, id);
      InsertCut(desired, base[bi], k);
    } else if bi != -1 {
      IdsOfDrop(desired, id);
      assert |Ids(Drop(desired, di))| == |desired| - 1;
      InsertCut(Drop(desired, di), KeepRefreshClock(base[bi], desired[di]), k);
    }
    hide Slot;
  }

  lemma InsertCut<T>(rest: seq<T>, v: T, k: nat)
    requires k <= |rest|
    ensures var out := Insert(rest, v, k); k < |out| == |rest| + 1 && out[k] == v && out[..k] + out[k + 1..] == rest
  {
  }

  lemma NothingWithout(ls: seq<RoutingList>, id: string)
    requires id !in Ids(ls)
    ensures |Without(Ids(ls), id)| == |ls|
  {
    WithoutAbsent(Ids(ls), id);
  }

  lemma StandsAt(ls: seq<RoutingList>, id: string, i: int)
    requires Distinct(Ids(ls))
    requires if i == -1 then id !in Ids(ls) else 0 <= i < |ls| && ls[i].id == id
    ensures IndexOf(ls, id) == i
  {
    if i != -1 { assert Ids(ls)[i] == id && Ids(ls)[IndexOf(ls, id)] == id; }
    hide IndexOf;
  }

  // ---- Undo of a Position row ---------------------------------------------------------------------

  /** Undoing a Position row always clears it: the undo is refused exactly when there is no such row,
      and afterwards the differ shows none for that list; the list keeps its content and its stamps,
      and the other lists their order. */
  lemma UndoPositionClears(base: seq<RoutingList>, desired: seq<RoutingList>, id: string)
    requires Distinct(Ids(base)) && Distinct(Ids(desired))
    ensures var (out, ok) := UndoPosition(base, desired, id);
            && ok == Moved(Ids(base), Ids(desired), id)
            && !Moved(Ids(base), Ids(out), id)
            && Without(Ids(out), id) == Without(Ids(desired), id)
            && multiset(out) == multiset(desired)
  {
    hide Without, CurrentSlot, RankSlot, RelativeOrder, SharedCount, IndexOf;
    var b, s := Ids(base), Ids(desired);
    if id in b && id in s {
      var di, bi, target := IndexOf(desired, id), IndexOf(base, id), RankSlot(b, s, id);
      var rest := Without(s, id);
      IdsOfDrop(desired, id);
      RankSlotQualifies(b, s, bi);
      MovedAt(b, s, bi, di);
      assert rest[..di] == s[..di] by { SlotAt(s, di); }
      if target != di {
        var out := UndoPosition(base, desired, id).0;
        IdsOfInsert(Drop(desired, di), desired[di], target);
        WithoutInsert(rest, id, target);
        WithoutIsDistinct(s, id);
        InsertKeepsDistinct(rest, id, target);
        var now := Insert(rest, id, target);
        assert Ids(out) == now && now[..target] == rest[..target] && now[target] == id;
        MovedAt(b, now, bi, target);
        SharedCountExt(now, s, b[..bi]);
        SamePieces(desired, di, target);
      }
    } else {
      assert !Moved(b, s, id);
    }
  }

  lemma SamePieces(ls: seq<RoutingList>, i: nat, k: nat)
    requires i < |ls| && k < |ls|
    ensures multiset(Insert(Drop(ls, i), ls[i], k)) == multiset(ls)
  {
    var d := Drop(ls, i);
    assert ls == ls[..i] + [ls[i]] + ls[i + 1..];
    assert multiset(ls) == multiset(ls[..i]) + multiset([ls[i]]) + multiset(ls[i + 1..]);
    assert d == d[..k] + d[k..];
    assert multiset(d) == multiset(d[..k]) + multiset(d[k..]);
    assert multiset(d) == multiset(ls[..i]) + multiset(ls[i + 1..]);
    assert multiset(Insert(d, ls[i], k)) == multiset(d[..k]) + multiset([ls[i]]) + multiset(d[k..]);
    assert multiset(Insert(d, ls[i], k)) == multiset(d) + multiset([ls[i]]);
    assert multiset(ls) == multiset(d) + multiset([ls[i]]);
  }

  lemma {:induction false} SharedCountExt(a: seq<string>, b: seq<string>, s: seq<string>)
    requires forall x :: x in a <==> x in b
    ensures SharedCount(a, s) == SharedCount(b, s)
  {
    if s != [] {
      SharedCountExt(a, b, s[..|s| - 1]);
    }
  }
}
