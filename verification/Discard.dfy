/** "Discard all" on the routing lists: undoReportedOnce replays one undo per reported list, placing
    each with restoreIndex against the lists as they stand at its turn, and undoReported repeats the
    pass at most maxUndoPasses times. The passes make progress by a measure, and where they stop by
    themselves the lists are the baseline's. */
module Discard {
  import opened Placement
  import opened Reorder
  import opened Undo

  /** The replay of the rows still ahead; an id is undone once. */
  function Replay(base: seq<RoutingList>, cur: seq<RoutingList>, rows: seq<Row>, seen: set<string>)
    : (r: (seq<RoutingList>, bool))
    ensures !r.1 ==> r.0 == cur
    decreases |rows|
  {
    if rows == [] then (cur, false)
    else if rows[0].id in seen then Replay(base, cur, rows[1..], seen)
    else
      var (next, did) := UndoList(base, cur, rows[0].id, ByRestore);
      var (out, more) := Replay(base, next, rows[1..], seen + {rows[0].id});
      (out, did || more)
  }

  function Pass(base: seq<RoutingList>, desired: seq<RoutingList>): (r: (seq<RoutingList>, bool))
    ensures !r.1 ==> r.0 == desired
  {
    Replay(base, desired, Diff(base, desired), {})
  }

  /** undoReportedOnce. */
  method UndoReportedOnce(base: seq<RoutingList>, desired: seq<RoutingList>)
    returns (out: seq<RoutingList>, touched: bool)
    ensures (out, touched) == Pass(base, desired)
  {
    var rows := DiffRoutingLists(base, desired);
    var seen: set<string> := {};
    out, touched := desired, false;
    for i := 0 to |rows|
      invariant var r := Replay(base, out, rows[i..], seen);
                Pass(base, desired) == (r.0, touched || r.1)
    {
      assert rows[i..][1..] == rows[i + 1..];
      if rows[i].id in seen {
        continue;
      }
      seen := seen + {rows[i].id};
      var p, ok := UndoOrdered(base, out, rows[i].id, ByRestore);
      if ok {
        out, touched := p, true;
      }
    }
  }

  const MAX_UNDO_PASSES: nat := 4

  function Passes(base: seq<RoutingList>, desired: seq<RoutingList>, n: nat): (r: (seq<RoutingList>, bool))
    decreases n
  {
    if n == 0 || !Pass(base, desired).1 then (desired, false)
    else (Passes(base, Pass(base, desired).0, n - 1).0, true)
  }

  /** undoReported. */
  method UndoReported(base: seq<RoutingList>, desired: seq<RoutingList>) returns (out: seq<RoutingList>, touched: bool)
    ensures (out, touched) == Passes(base, desired, MAX_UNDO_PASSES)
  {
    hide Pass;
    out, touched := desired, false;
    var pass := 0;
    while pass < MAX_UNDO_PASSES
      invariant 0 <= pass <= MAX_UNDO_PASSES
      invariant var r := Passes(base, out, MAX_UNDO_PASSES - pass);
                Passes(base, desired, MAX_UNDO_PASSES) == (r.0, touched || r.1)
    {
      var p, did := UndoReportedOnce(base, out);
      if !did {
        break;
      }
      out, touched := p, true;
      pass := pass + 1;
    }
  }

  // ---- What one undo does -------------------------------------------------------------------------

  /** Nothing but possibly a move is pending for id. */
  ghost predicate Settled(base: seq<RoutingList>, cur: seq<RoutingList>, id: string) {
    && (id in Ids(base) <==> id in Ids(cur))
    && forall b, c | b in base && c in cur && b.id == id && c.id == id :: b.body == c.body
  }

  ghost predicate SameOthers(a: seq<RoutingList>, b: seq<RoutingList>, id: string) {
    forall e: RoutingList | e.id != id :: e in a <==> e in b
  }

  ghost function Pending(base: seq<RoutingList>, cur: seq<RoutingList>): set<string> {
    set x | x in Ids(base) + Ids(cur) && !Settled(base, cur, x)
  }

  lemma OneWithId(ls: seq<RoutingList>, a: RoutingList, b: RoutingList)
    requires Distinct(Ids(ls)) && a in ls && b in ls && a.id == b.id
    ensures a == b
  {
  }

  lemma DropKeeps(ls: seq<RoutingList>, i: nat)
    requires Distinct(Ids(ls)) && i < |ls|
    ensures forall e :: e in Drop(ls, i) <==> e in ls && e.id != ls[i].id
  {
  }

  lemma InsertAdds(ls: seq<RoutingList>, v: RoutingList, k: nat)
    requires k <= |ls|
    ensures forall e :: e in Insert(ls, v, k) <==> e in ls || e == v
  {
  }

  /** What a batch undo of id leaves: its list settled, the others as they were and in their order, and
      the list itself, when the baseline has it, at the slot restoreIndex chose. */
  ghost predicate Undone(base: seq<RoutingList>, cur: seq<RoutingList>, id: string, out: seq<RoutingList>) {
    && Distinct(Ids(out))
    && Settled(base, out, id)
    && SameOthers(out, cur, id)
    && Ids(out) == if id in Ids(base)
                   then Insert(Without(Ids(cur), id), id, RestoreSlot(Ids(base), Ids(cur), id))
                   else Without(Ids(cur), id)
  }

  lemma AddedIsDropped(base: seq<RoutingList>, cur: seq<RoutingList>, id: string)
    requires Distinct(Ids(base)) && Distinct(Ids(cur)) && id !in Ids(base)
    ensures Undone(base, cur, id, UndoList(base, cur, id, ByRestore).0)
  {
    WithoutIsDistinct(Ids(cur), id);
    forall b | b in base && b.id == id
      ensures false
    {
      InIds(base, b);
    }
    if id in Ids(cur) {
      IdsOfDrop(cur, id);
      DropKeeps(cur, IndexOf(cur, id));
    } else {
      WithoutAbsent(Ids(cur), id);
    }
  }

  lemma RemovedIsRestored(base: seq<RoutingList>, cur: seq<RoutingList>, id: string)
    requires Distinct(Ids(base)) && Distinct(Ids(cur)) && id in Ids(base) && id !in Ids(cur)
    ensures Undone(base, cur, id, UndoList(base, cur, id, ByRestore).0)
  {
    var target := RestoreSlot(Ids(base), Ids(cur), id);
    WithoutAbsent(Ids(cur), id);
    assert UndoList(base, cur, id, ByRestore).0 == Insert(cur, base[IndexOf(base, id)], target);
    hide UndoList, RestoreSlot, IndexOf, Without, Insert, Settled, SameOthers, Distinct;
    InsertBack(base, cur, Ids(cur), base[IndexOf(base, id)], target);
  }

  lemma SharedIsReset(base: seq<RoutingList>, cur: seq<RoutingList>, id: string)
    requires Distinct(Ids(base)) && Distinct(Ids(cur)) && id in Ids(base) && id in Ids(cur)
    ensures Undone(base, cur, id, UndoList(base, cur, id, ByRestore).0)
  {
    var bi, di, target := IndexOf(base, id), IndexOf(cur, id), RestoreSlot(Ids(base), Ids(cur), id);
    IdsOfDrop(cur, id);
    TakeOut(Ids(cur), id);
    if target == di && base[bi].body == cur[di].body {
      UntouchedIsSettled(base, cur, id);
    } else {
      assert UndoList(base, cur, id, ByRestore).0 == Insert(Drop(cur, di), KeepRefreshClock(base[bi], cur[di]), target);
      hide UndoList, RestoreSlot, IndexOf, Insert, Drop, Undone, Distinct;
      PutBack(base, cur, id, KeepRefreshClock(base[bi], cur[di]), target);
    }
  }

  lemma PutBack(base: seq<RoutingList>, cur: seq<RoutingList>, id: string, back: RoutingList, k: nat)
    requires Distinct(Ids(base)) && Distinct(Ids(cur)) && id in Ids(base) && id in Ids(cur)
    requires back.id == id && back.body == base[IndexOf(base, id)].body
    requires k == RestoreSlot(Ids(base), Ids(cur), id) && k < |cur|
    ensures Undone(base, cur, id, Insert(Drop(cur, IndexOf(cur, id)), back, k))
  {
    var left, rest := Drop(cur, IndexOf(cur, id)), Without(Ids(cur), id);
    IdsOfDrop(cur, id);
    WithoutIsDistinct(Ids(cur), id);
    hide RestoreSlot, IndexOf, Without, Insert, Drop, Settled, SameOthers, Distinct;
    InsertBack(base, left, rest, back, k);
    OthersKept(cur, Insert(left, back, k), IndexOf(cur, id));
  }

  lemma OthersKept(cur: seq<RoutingList>, out: seq<RoutingList>, i: nat)
    requires Distinct(Ids(cur)) && i < |cur| && SameOthers(out, Drop(cur, i), cur[i].id)
    ensures SameOthers(out, cur, cur[i].id)
  {
    DropKeeps(cur, i);
    hide Drop, Distinct;
  }

  lemma UntouchedIsSettled(base: seq<RoutingList>, cur: seq<RoutingList>, id: string)
    requires Distinct(Ids(base)) && Distinct(Ids(cur)) && id in Ids(base) && id in Ids(cur)
    requires base[IndexOf(base, id)].body == cur[IndexOf(cur, id)].body
    ensures Settled(base, cur, id)
  {
    hide IndexOf;
    forall b, c | b in base && c in cur && b.id == id && c.id == id
      ensures b.body == c.body
    {
      OneWithId(base, b, base[IndexOf(base, id)]);
      OneWithId(cur, c, cur[IndexOf(cur, id)]);
    }
  }

  lemma UndoEffect(base: seq<RoutingList>, cur: seq<RoutingList>, id: string)
    requires Distinct(Ids(base)) && Distinct(Ids(cur))
    ensures Undone(base, cur, id, UndoList(base, cur, id, ByRestore).0)
  {
    if id !in Ids(base) {
      AddedIsDropped(base, cur, id);
    } else if id !in Ids(cur) {
      RemovedIsRestored(base, cur, id);
    } else {
      SharedIsReset(base, cur, id);
    }
  }

  lemma InsertBack(base: seq<RoutingList>, left: seq<RoutingList>, rest: seq<string>, back: RoutingList, k: nat)
    requires Ids(left) == rest && Distinct(rest) && back.id !in rest && k <= |rest| && Distinct(Ids(base))
    requires exists b :: b in base && b.id == back.id && b.body == back.body
    ensures var out := Insert(left, back, k);
            && Ids(out) == Insert(rest, back.id, k) && Distinct(Ids(out)) && Settled(base, out, back.id)
            && Without(Ids(out), back.id) == rest
            && SameOthers(out, left, back.id)
  {
    var out := Insert(left, back, k);
    IdsOfInsert(left, back, k);
    InsertKeepsDistinct(rest, back.id, k);
    WithoutInsert(rest, back.id, k);
    InsertAdds(left, back, k);
    var b :| b in base && b.id == back.id && b.body == back.body;
    assert Ids(base)[IndexOf(base, back.id)] == back.id by { InIds(base, b); }
    forall x, c | x in base && c in out && x.id == back.id && c.id == back.id
      ensures x.body == c.body
    {
      OneWithId(base, x, b);
      OneWithId(out, c, back);
    }
  }

  lemma InIds(ls: seq<RoutingList>, e: RoutingList)
    requires e in ls
    ensures e.id in Ids(ls)
  {
  }

  lemma OthersSettled(base: seq<RoutingList>, cur: seq<RoutingList>, out: seq<RoutingList>, id: string, x: string)
    requires x != id && SameOthers(out, cur, id)
    ensures Settled(base, out, x) <==> Settled(base, cur, x)
    ensures x in Ids(out) <==> x in Ids(cur)
  {
  }

  lemma UndoSettles(base: seq<RoutingList>, cur: seq<RoutingList>, id: string)
    requires Distinct(Ids(base)) && Distinct(Ids(cur))
    ensures Pending(base, UndoList(base, cur, id, ByRestore).0) == Pending(base, cur) - {id}
  {
    var out := UndoList(base, cur, id, ByRestore).0;
    UndoEffect(base, cur, id);
    forall x
      ensures x in Pending(base, out) <==> x in Pending(base, cur) && x != id
    {
      if x != id {
        OthersSettled(base, cur, out, id, x);
      }
    }
  }

  ghost function Disorder(base: seq<RoutingList>, cur: seq<RoutingList>): nat {
    Inversions(Ranks(Ids(base)), Ids(cur))
  }

  /** The measure: lists added, removed or modified first, then inversions against the baseline. */
  ghost predicate Lower(base: seq<RoutingList>, a: seq<RoutingList>, b: seq<RoutingList>) {
    Pending(base, a) < Pending(base, b) ||
    (Pending(base, a) == Pending(base, b) && Disorder(base, a) < Disorder(base, b))
  }

  lemma DisorderAt(base: seq<RoutingList>, cur: seq<RoutingList>, id: string, k: nat)
    requires Distinct(Ids(base)) && id in Ids(base) && id !in Without(Ids(cur), id) && k <= |Without(Ids(cur), id)|
    ensures var rank, rest := Ranks(Ids(base)), Without(Ids(cur), id);
            Inversions(rank, Insert(rest, id, k)) == Inversions(rank, rest) + Misplaced(rank, rank[id], rest, k)
  {
    var rank := Ranks(Ids(base));
    assert forall x | x in rank && x != id :: Ids(base)[rank[x]] != Ids(base)[rank[id]];
    InversionsInsert(rank, Without(Ids(cur), id), id, k);
  }

  /** A settled list moves only to a better slot. */
  lemma MoveLowers(base: seq<RoutingList>, cur: seq<RoutingList>, id: string)
    requires Distinct(Ids(base)) && Distinct(Ids(cur)) && id in Ids(base) && id in Ids(cur)
    requires RestoreSlot(Ids(base), Ids(cur), id) != CurrentSlot(Ids(cur), id)
    ensures Disorder(base, UndoList(base, cur, id, ByRestore).0) < Disorder(base, cur)
  {
    var b, c := Ids(base), Ids(cur);
    UndoEffect(base, cur, id);
    TakeOut(c, id);
    DisorderAt(base, cur, id, RestoreSlot(b, c, id));
    DisorderAt(base, cur, id, CurrentSlot(c, id));
    RestoreSlotIsOptimal(b, c, id);
  }

  /** Every undo of the batch that changes anything lowers the measure. */
  lemma UndoProgress(base: seq<RoutingList>, cur: seq<RoutingList>, id: string)
    requires Distinct(Ids(base)) && Distinct(Ids(cur)) && UndoList(base, cur, id, ByRestore).1
    ensures Lower(base, UndoList(base, cur, id, ByRestore).0, cur)
  {
    UndoSettles(base, cur, id);
    if id !in Pending(base, cur) {
      IdsOfDrop(cur, id);
      assert base[IndexOf(base, id)].body == cur[IndexOf(cur, id)].body;
      MoveLowers(base, cur, id);
    }
  }

  // ---- What the review reports --------------------------------------------------------------------

  lemma {:induction false} DesiredRowsAre(base: seq<RoutingList>, cur: seq<RoutingList>, n: nat, row: Row)
    requires n <= |cur|
    ensures row in DesiredRows(base, cur, n) <==> exists i :: 0 <= i < n && row in RowsOf(base, cur, cur[i])
  {
    hide RowsOf;
    if n > 0 {
      DesiredRowsAre(base, cur, n - 1, row);
    }
  }

  lemma {:induction false} RemovedRowsAre(base: seq<RoutingList>, cur: seq<RoutingList>, n: nat, row: Row)
    requires n <= |base|
    ensures row in RemovedRows(base, cur, n) <==>
            row.Removed? && row.id !in Ids(cur) && exists i :: 0 <= i < n && base[i].id == row.id
  {
    if n > 0 {
      RemovedRowsAre(base, cur, n - 1, row);
    }
  }

  /** What each kind of row says about its list. */
  ghost predicate Says(base: seq<RoutingList>, cur: seq<RoutingList>, row: Row) {
    var b, c, id := Ids(base), Ids(cur), row.id;
    match row
    case Added(_) => id in c && id !in b
    case Removed(_) => id in b && id !in c
    case Modified(_) => id in b && id in c && base[IndexOf(base, id)].body != cur[IndexOf(cur, id)].body
    case Position(_, before, after) =>
      Moved(b, c, id) && before == RelativeOrder(b, c)[id] && after == RelativeOrder(c, b)[id]
  }

  /** The review holds exactly the rows that say something true. */
  lemma DiffRow(base: seq<RoutingList>, cur: seq<RoutingList>, row: Row)
    requires Distinct(Ids(base)) && Distinct(Ids(cur))
    ensures row in Diff(base, cur) <==> Says(base, cur, row)
  {
    DesiredRow(base, cur, row);
    RemovedRow(base, cur, row);
  }

  lemma DesiredRow(base: seq<RoutingList>, cur: seq<RoutingList>, row: Row)
    requires Distinct(Ids(base)) && Distinct(Ids(cur))
    ensures row in DesiredRows(base, cur, |cur|) <==> !row.Removed? && Says(base, cur, row)
  {
    var di := IndexOf(cur, row.id);
    DesiredRowsAre(base, cur, |cur|, row);
    forall i | 0 <= i < |cur| && row in RowsOf(base, cur, cur[i])
      ensures i == di
    {
      RowIdOf(base, cur, cur[i], row);
      assert Ids(cur)[i] == row.id == Ids(cur)[di];
    }
    if di >= 0 {
      RowsOfOne(base, cur, di, row);
    }
  }

  lemma RowIdOf(base: seq<RoutingList>, cur: seq<RoutingList>, d: RoutingList, row: Row)
    requires d in cur && row in RowsOf(base, cur, d)
    ensures row.id == d.id
  {
  }

  lemma RemovedRow(base: seq<RoutingList>, cur: seq<RoutingList>, row: Row)
    ensures row in RemovedRows(base, cur, |base|) <==> row.Removed? && Says(base, cur, row)
  {
    RemovedRowsAre(base, cur, |base|, row);
    if IndexOf(base, row.id) >= 0 {
      assert base[IndexOf(base, row.id)].id == row.id;
    }
  }

  lemma RowsOfOne(base: seq<RoutingList>, cur: seq<RoutingList>, di: nat, row: Row)
    requires Distinct(Ids(base)) && di < |cur| && di == IndexOf(cur, row.id)
    ensures row in RowsOf(base, cur, cur[di]) <==> !row.Removed? && Says(base, cur, row)
  {
    var b, c, id := Ids(base), Ids(cur), row.id;
    assert cur[di].id == id && c[di] == id;
    if id in b {
      RowsOfShared(base, cur, di, row);
    } else {
      assert RowsOf(base, cur, cur[di]) == [Added(id)];
      hide RowsOf, RelativeOrder, IndexOf, Ids;
    }
  }

  lemma RowsOfShared(base: seq<RoutingList>, cur: seq<RoutingList>, di: nat, row: Row)
    requires di < |cur| && cur[di].id == row.id && di == IndexOf(cur, row.id)
    requires Distinct(Ids(base)) && row.id in Ids(base) && row.id in Ids(cur)
    ensures row in RowsOf(base, cur, cur[di]) <==> !row.Removed? && Says(base, cur, row)
  {
    var b, c, id := Ids(base), Ids(cur), row.id;
    var before, after := RelativeOrder(b, c)[id], RelativeOrder(c, b)[id];
    RankIsIndex(base, id);
    var changed := base[IndexOf(base, id)].body != cur[di].body;
    var edits := if changed then [Modified(id)] else [];
    var moves := if before != after then [Position(id, before, after)] else [];
    assert RowsOf(base, cur, cur[di]) == edits + moves;
    assert Moved(b, c, id) == (before != after);
    hide RowsOf, RelativeOrder, IndexOf, Ids, Moved, Ranks, Distinct;
    assert row in edits + moves <==> row in edits || row in moves;
    match row
    case Added(_) =>
    case Modified(_) => assert row in edits <==> changed;
    case Position(_, _, _) =>
    case Removed(_) =>
  }

  ghost predicate Reported(base: seq<RoutingList>, cur: seq<RoutingList>, id: string) {
    exists row :: row in Diff(base, cur) && row.id == id
  }

  /** A list has a row exactly when it is added, removed, modified or moved, and the only row of a list
      that is none of the first three is its Position row. */
  lemma ReportIsExact(base: seq<RoutingList>, cur: seq<RoutingList>, id: string)
    requires Distinct(Ids(base)) && Distinct(Ids(cur))
    ensures Reported(base, cur, id) <==> id in Pending(base, cur) || Moved(Ids(base), Ids(cur), id)
    ensures forall row | row in Diff(base, cur) && row.id == id ::
              if row.Position? then Moved(Ids(base), Ids(cur), id) else id in Pending(base, cur)
  {
    var b, c := Ids(base), Ids(cur);
    if id in c {
      PendingShared(base, cur, id);
    }
    forall row | row in Diff(base, cur) && row.id == id
      ensures if row.Position? then Moved(b, c, id) else id in Pending(base, cur)
    {
      DiffRow(base, cur, row);
    }
    DiffRow(base, cur, Added(id));
    DiffRow(base, cur, Removed(id));
    DiffRow(base, cur, Modified(id));
    if Moved(b, c, id) {
      DiffRow(base, cur, Position(id, RelativeOrder(b, c)[id], RelativeOrder(c, b)[id]));
    }
  }

  lemma PendingShared(base: seq<RoutingList>, cur: seq<RoutingList>, id: string)
    requires Distinct(Ids(base)) && Distinct(Ids(cur)) && id in Ids(cur)
    ensures id in Pending(base, cur) <==>
            id !in Ids(base) || base[IndexOf(base, id)].body != cur[IndexOf(cur, id)].body
  {
  }

  // ---- What one pass does -------------------------------------------------------------------------

  ghost predicate Covers(rows: seq<Row>, seen: set<string>, ids: set<string>) {
    forall x | x in ids :: x !in seen && exists row :: row in rows && row.id == x
  }

  /** A replay whose rows cover everything pending leaves nothing but moves pending. */
  lemma {:induction false} ReplaySettles(base: seq<RoutingList>, cur: seq<RoutingList>, rows: seq<Row>,
                                         seen: set<string>)
    requires Distinct(Ids(base)) && Distinct(Ids(cur)) && Covers(rows, seen, Pending(base, cur))
    ensures var out := Replay(base, cur, rows, seen).0;
            Distinct(Ids(out)) && Pending(base, out) == {}
    decreases |rows|
  {
    if rows == [] {
      assert forall x :: x !in Pending(base, cur);
    } else {
      var id, rest := rows[0].id, rows[1..];
      assert forall row :: row in rows ==> row == rows[0] || row in rest;
      if id in seen {
        ReplaySettles(base, cur, rest, seen);
      } else {
        UndoEffect(base, cur, id);
        UndoSettles(base, cur, id);
        ReplaySettles(base, UndoList(base, cur, id, ByRestore).0, rest, seen + {id});
      }
    }
  }

  /** A replay that changed something lowered the measure; one that did not had nothing it could undo. */
  lemma {:induction false} ReplayProgress(base: seq<RoutingList>, cur: seq<RoutingList>, rows: seq<Row>,
                                          seen: set<string>)
    requires Distinct(Ids(base)) && Distinct(Ids(cur))
    ensures var (out, did) := Replay(base, cur, rows, seen);
            && Distinct(Ids(out))
            && (did ==> Lower(base, out, cur))
            && (!did ==> forall row | row in rows && row.id !in seen :: !UndoList(base, cur, row.id, ByRestore).1)
    decreases |rows|
  {
    if rows != [] {
      var id, rest := rows[0].id, rows[1..];
      if id in seen {
        ReplayProgress(base, cur, rest, seen);
      } else {
        var (next, did) := UndoList(base, cur, id, ByRestore);
        UndoEffect(base, cur, id);
        if did {
          UndoProgress(base, cur, id);
        }
        ReplayProgress(base, next, rest, seen + {id});
      }
    }
  }

  /** While nothing is out of order a replay keeps it so: each list goes back where it misplaces none. */
  lemma {:induction false} ReplayKeepsOrder(base: seq<RoutingList>, cur: seq<RoutingList>, rows: seq<Row>,
                                            seen: set<string>)
    requires Distinct(Ids(base)) && Distinct(Ids(cur)) && InOrder(Ids(base), Ids(cur))
    ensures InOrder(Ids(base), Ids(Replay(base, cur, rows, seen).0))
    decreases |rows|
  {
    if rows != [] {
      var id, rest := rows[0].id, rows[1..];
      if id in seen {
        ReplayKeepsOrder(base, cur, rest, seen);
      } else {
        UndoEffect(base, cur, id);
        UndoKeepsOrder(base, cur, id);
        ReplayKeepsOrder(base, UndoList(base, cur, id, ByRestore).0, rest, seen + {id});
      }
    }
  }

  lemma UndoKeepsOrder(base: seq<RoutingList>, cur: seq<RoutingList>, id: string)
    requires Distinct(Ids(base)) && Distinct(Ids(cur)) && InOrder(Ids(base), Ids(cur))
    ensures InOrder(Ids(base), Ids(UndoList(base, cur, id, ByRestore).0))
  {
    var b, c := Ids(base), Ids(cur);
    var rest := Without(c, id);
    UndoEffect(base, cur, id);
    WithoutIsDistinct(c, id);
    WithoutKeepsOrder(b, c, id);
    if id in b {
      var k := RestoreSlot(b, c, id);
      var slot := OrderedSlot(b, rest, Ranks(b)[id], |rest|);
      RestoreSlotIsOptimal(b, c, id);
      DisorderAt(base, cur, id, k);
      NoInversions(b, rest);
      InsertKeepsDistinct(rest, id, k);
      NoInversions(b, Insert(rest, id, k));
    }
  }

  lemma WithoutKeepsOrder(base: seq<string>, s: seq<string>, id: string)
    requires Distinct(s) && InOrder(base, s)
    ensures InOrder(base, Without(s, id))
  {
    if id in s {
      var i :| 0 <= i < |s| && s[i] == id;
      SlotAt(s, i);
      hide Without, Distinct;
      CutKeepsOrder(base, s, i);
    } else {
      WithoutAbsent(s, id);
    }
  }

  lemma CutKeepsOrder(base: seq<string>, s: seq<string>, i: nat)
    requires InOrder(base, s) && i < |s|
    ensures InOrder(base, s[..i] + s[i + 1..])
  {
    var rest := s[..i] + s[i + 1..];
    forall j, k | 0 <= j < k < |rest| && rest[j] in base && rest[k] in base
      ensures Ranks(base)[rest[j]] < Ranks(base)[rest[k]]
    {
      var m, n := if j < i then j else j + 1, if k < i then k else k + 1;
      assert rest[j] == s[m] && rest[k] == s[n];
      hide Ranks;
    }
  }

  // ---- Theorems -----------------------------------------------------------------------------------

  /** The baseline's lists in the baseline's order, up to refresh stamps. */
  predicate SameLists(a: seq<RoutingList>, b: seq<RoutingList>) {
    |a| == |b| && forall i | 0 <= i < |a| :: a[i].id == b[i].id && a[i].body == b[i].body
  }

  /** An empty review means the lists are the baseline's. */
  lemma CleanReviewIsBaseline(base: seq<RoutingList>, cur: seq<RoutingList>)
    requires Distinct(Ids(base)) && Distinct(Ids(cur))
    ensures Diff(base, cur) == [] <==> SameLists(base, cur)
  {
    if Diff(base, cur) == [] {
      forall id
        ensures id !in Pending(base, cur) && !Moved(Ids(base), Ids(cur), id)
      {
        ReportIsExact(base, cur, id);
      }
      NothingPendingIsBaseline(base, cur);
    } else {
      ReportedDiffers(base, cur, Diff(base, cur)[0]);
    }
  }

  lemma NothingPendingIsBaseline(base: seq<RoutingList>, cur: seq<RoutingList>)
    requires Distinct(Ids(base)) && Distinct(Ids(cur))
    requires forall id :: id !in Pending(base, cur) && !Moved(Ids(base), Ids(cur), id)
    ensures SameLists(base, cur)
  {
    forall id
      ensures id in Ids(base) <==> id in Ids(cur)
    {
      assert id !in Pending(base, cur);
    }
    SameReading(Ids(base), Ids(cur));
    forall i | 0 <= i < |base|
      ensures base[i].id == cur[i].id && base[i].body == cur[i].body
    {
      assert Ids(base)[i] == Ids(cur)[i];
      SettledAgrees(base, cur, base[i], cur[i]);
    }
  }

  lemma SameReading(b: seq<string>, c: seq<string>)
    requires Distinct(b) && Distinct(c)
    requires forall id :: (id in b <==> id in c) && !Moved(b, c, id)
    ensures b == c
  {
    AllShared(b, c);
    AllShared(c, b);
    NoRowsMeansSameOrder(b, c);
  }

  lemma SettledAgrees(base: seq<RoutingList>, cur: seq<RoutingList>, x: RoutingList, y: RoutingList)
    requires x in base && y in cur && x.id == y.id && x.id !in Pending(base, cur)
    ensures x.body == y.body
  {
  }

  lemma ReportedDiffers(base: seq<RoutingList>, cur: seq<RoutingList>, row: Row)
    requires Distinct(Ids(base)) && Distinct(Ids(cur)) && row in Diff(base, cur)
    ensures !SameLists(base, cur)
  {
    if SameLists(base, cur) {
      assert Ids(base) == Ids(cur);
      DiffRow(base, cur, row);
      SameIndex(base, cur, row.id);
    }
  }

  lemma {:induction false} SameIndex(a: seq<RoutingList>, b: seq<RoutingList>, id: string)
    requires Ids(a) == Ids(b)
    ensures IndexOf(a, id) == IndexOf(b, id)
  {
  }

  lemma {:induction false} AllShared(s: seq<string>, other: seq<string>)
    requires forall x | x in s :: x in other
    ensures Shared(s, other) == s
  {
    if s != [] {
      var before, last := s[..|s| - 1], s[|s| - 1];
      SharedSnoc(s, other);
      assert s == before + [last];
      hide Shared;
      AllShared(before, other);
    }
  }

  lemma SharedSnoc(s: seq<string>, other: seq<string>)
    requires s != [] && s[|s| - 1] in other
    ensures Shared(s, other) == Shared(s[..|s| - 1], other) + [s[|s| - 1]]
  {
  }

  /** One pass: only Position rows can survive it, it lowers the measure if it touches anything, and if it
      touches nothing no row was pending. */
  lemma OnePass(base: seq<RoutingList>, cur: seq<RoutingList>)
    requires Distinct(Ids(base)) && Distinct(Ids(cur))
    ensures var (out, touched) := Pass(base, cur);
            && Distinct(Ids(out))
            && (forall row | row in Diff(base, out) :: row.Position?)
            && (touched ==> Lower(base, out, cur))
            && (touched <==> Diff(base, cur) != [])
  {
    var (out, touched) := Pass(base, cur);
    var rows := Diff(base, cur);
    forall x | x in Pending(base, cur)
      ensures exists row :: row in rows && row.id == x
    {
      ReportIsExact(base, cur, x);
    }
    ReplaySettles(base, cur, rows, {});
    ReplayProgress(base, cur, rows, {});
    forall row | row in Diff(base, out)
      ensures row.Position?
    {
      ReportIsExact(base, out, row.id);
    }
    if !touched && rows != [] {
      QuietPassHasNoRows(base, cur);
    }
  }

  lemma QuietPassHasNoRows(base: seq<RoutingList>, cur: seq<RoutingList>)
    requires Distinct(Ids(base)) && Distinct(Ids(cur)) && !Pass(base, cur).1
    ensures Diff(base, cur) == []
  {
    ReplayProgress(base, cur, Diff(base, cur), {});
    hide Diff, Replay, Distinct, InOrder, Pending, IndexOf, Moved;
    forall id | Reported(base, cur, id)
      ensures !UndoList(base, cur, id, ByRestore).1 && id !in Pending(base, cur)
    {
      UndoSettles(base, cur, id);
    }
    if !InOrder(Ids(base), Ids(cur)) {
      NothingToUndoIsInOrder(base, cur);
    }
    if Diff(base, cur) != [] {
      var row := Diff(base, cur)[0];
      assert row in Diff(base, cur);
      NoRowsMeansInOrder(Ids(base), Ids(cur));
      ReportIsExact(base, cur, row.id);
    }
  }

  lemma NothingToUndoIsInOrder(base: seq<RoutingList>, cur: seq<RoutingList>)
    requires Distinct(Ids(base)) && Distinct(Ids(cur))
    requires forall id | Reported(base, cur, id) :: !UndoList(base, cur, id, ByRestore).1
    ensures InOrder(Ids(base), Ids(cur))
  {
    hide Diff, Distinct, InOrder, Pending, RestoreSlot, CurrentSlot, Without;
    if !InOrder(Ids(base), Ids(cur)) {
      var x := MovedCanImprove(Ids(base), Ids(cur));
      ReportIsExact(base, cur, x);
      IdsOfDrop(cur, x);
      assert false;
    }
  }

  /** When the surviving lists were not reordered, one pass gives the baseline. */
  lemma OnePassSuffices(base: seq<RoutingList>, cur: seq<RoutingList>)
    requires Distinct(Ids(base)) && Distinct(Ids(cur))
    requires Shared(Ids(base), Ids(cur)) == Shared(Ids(cur), Ids(base))
    ensures SameLists(base, Pass(base, cur).0)
  {
    var b, c := Ids(base), Ids(cur);
    var out := Pass(base, cur).0;
    NoRowsMeansSameOrder(b, c);
    NoRowsMeansInOrder(b, c);
    ReplayKeepsOrder(base, cur, Diff(base, cur), {});
    OnePass(base, cur);
    NoRowsMeansInOrder(b, Ids(out));
    if Diff(base, out) != [] {
      var row := Diff(base, out)[0];
      ReportIsExact(base, out, row.id);
    }
    CleanReviewIsBaseline(base, out);
  }

  lemma PassVerdict(base: seq<RoutingList>, cur: seq<RoutingList>)
    requires Distinct(Ids(base)) && Distinct(Ids(cur))
    ensures Pass(base, cur).1 ==> Distinct(Ids(Pass(base, cur).0)) && Lower(base, Pass(base, cur).0, cur)
    ensures !Pass(base, cur).1 ==> SameLists(base, cur)
  {
    OnePass(base, cur);
    CleanReviewIsBaseline(base, cur);
  }

  /** Repeated without a cap, the passes end, and they end at the baseline. */
  lemma {:induction false} PassesEnd(base: seq<RoutingList>, cur: seq<RoutingList>) returns (n: nat)
    requires Distinct(Ids(base)) && Distinct(Ids(cur))
    ensures SameLists(base, Passes(base, cur, n).0)
    decreases Pending(base, cur), Disorder(base, cur)
  {
    hide Pass, Pending, Disorder, SameLists;
    PassVerdict(base, cur);
    if Pass(base, cur).1 {
      var m := PassesEnd(base, Pass(base, cur).0);
      n := m + 1;
      PassesStep(base, cur, m);
    } else {
      n := 0;
    }
  }

  lemma PassesStep(base: seq<RoutingList>, cur: seq<RoutingList>, m: nat)
    requires Pass(base, cur).1
    ensures Passes(base, cur, m + 1).0 == Passes(base, Pass(base, cur).0, m).0
  {
  }

  /** "Discard all": it reports something undone exactly when the review had a row; afterwards only
      Position rows are left, and none unless every one of the capped passes still changed something. */
  lemma {:induction false} DiscardAll(base: seq<RoutingList>, cur: seq<RoutingList>, n: nat)
    requires Distinct(Ids(base)) && Distinct(Ids(cur)) && n > 0
    ensures var (out, touched) := Passes(base, cur, n);
            && (touched <==> Diff(base, cur) != [])
            && Distinct(Ids(out))
            && (forall row | row in Diff(base, out) :: row.Position?)
            && (touched ==> Lower(base, out, cur))
            && (SameLists(base, out) || AllPassesTouched(base, cur, n))
    decreases n
  {
    hide Pass, Diff, Lower, SameLists, Distinct;
    OnePass(base, cur);
    CleanReviewIsBaseline(base, cur);
    var next := Pass(base, cur).0;
    if Pass(base, cur).1 && n > 1 {
      DiscardAll(base, next, n - 1);
      if Passes(base, next, n - 1).1 { LowerStill(base, Passes(base, next, n - 1).0, next, cur); }
    }
  }

  lemma LowerStill(base: seq<RoutingList>, a: seq<RoutingList>, b: seq<RoutingList>, c: seq<RoutingList>)
    requires Lower(base, a, b) && Lower(base, b, c)
    ensures Lower(base, a, c)
  {
    hide Pending, Disorder;
  }

  ghost predicate AllPassesTouched(base: seq<RoutingList>, cur: seq<RoutingList>, n: nat)
    decreases n
  {
    n == 0 || (Pass(base, cur).1 && AllPassesTouched(base, Pass(base, cur).0, n - 1))
  }
}
