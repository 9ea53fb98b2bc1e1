/** The stored binary of internal/binstore/binstore.go as the handful of files it lives in. Each
    operation is the list of directory states it passes through, for given outcomes of its file
    operations; a kill or a power cut leaves any one of them. The class runs the same operations step by
    step and keeps the list. */
module Binstore {
  import opened Wrappers

  type Bytes = string

  /** The digest of some bytes, taken as injective, or the text a torn write left in its place. */
  datatype Digest = Of(bytes: Bytes) | Text(text: string)

  datatype Record = Record(version: string, compressed: bool, size: int, modTime: int, sum: Digest)

  /** A binary or gzip, a record, a marker, or bytes that read as none of them. */
  datatype Content = Blob(bytes: Bytes) | Note(rec: Record) | Mark(sum: Digest) | Garbage

  datatype File = File(content: Content, modTime: int)

  /** name, name.gz, .name.version, its .next, the verified gzip being installed; then runDir's copy, the
      copy's marker (.src), and the copy being inflated (.new). */
  datatype Path = Raw | Gz | Rec | Next | Src | Target | Marker | Inflating

  type Dir = map<Path, File>

  function SizeOf(f: File): int {
    if f.content.Blob? then |f.content.bytes| else 0
  }

  function Stored(compressed: bool): Path {
    if compressed then Gz else Raw
  }

  function Describe(f: File, version: string, compressed: bool): Record {
    Record(version, compressed, SizeOf(f), f.modTime,
           if compressed && f.content.Blob? then Of(f.content.bytes) else Text("-"))
  }

  predicate Describes(r: Record, f: File) {
    r.size == SizeOf(f) && r.modTime == f.modTime
  }

  /** The record at p, when it describes the file stored for name. */
  function ReadRecord(d: Dir, p: Path): Option<Record> {
    if p in d && d[p].content.Note? then
      var r := d[p].content.rec;
      if Stored(r.compressed) in d && Describes(r, d[Stored(r.compressed)]) then Some(r) else None
    else None
  }

  function Read(d: Dir): Option<Record> {
    if ReadRecord(d, Rec).Some? then ReadRecord(d, Rec) else ReadRecord(d, Next)
  }

  /** There is a record that Read accepts, and what it names runs: for a gzip, the digest Unpack checks
      is the gzip's. */
  predicate Runnable(d: Dir) {
    var r := Read(d);
    r.Some? && (r.value.compressed ==> d[Gz].content.Blob? && r.value.sum == Of(d[Gz].content.bytes))
  }

  function MoveTo(d: Dir, from: Path, to: Path): Dir
    requires from in d
  {
    (d - {from})[to := d[from]]
  }

  // ---- StoreCompressed ----------------------------------------------------------------------------

  /** How the file operations of one StoreCompressed go. torn is what the pending record's name holds
      while it is being written, and keeps when the write fails and so does its cleanup. */
  datatype StoreOutcome = StoreOutcome(settled: bool, torn: Option<Content>, written: bool, swept: bool,
                                       moved: bool, dropped: bool, named: bool)

  /** A cut-short record has lost whole fields, and reads as none, or part of the digest, its last, or no more
      than the line ending. */
  predicate TornRecord(c: Content, r: Record) {
    c == Garbage || c == Note(r) || (c.Note? && c.rec.sum.Text? && c.rec == r.(sum := c.rec.sum))
  }

  function Settle(d: Dir, settled: bool): Dir {
    if ReadRecord(d, Rec).None? && ReadRecord(d, Next).Some? && settled then MoveTo(d, Next, Rec) else d
  }

  function Sweep(d: Dir, p: Path, swept: bool): Dir {
    if swept then d - {p} else d
  }

  /** The states from the rename of the gzip on. */
  function FinishStates(d: Dir, o: StoreOutcome): seq<Dir>
    requires Src in d && Next in d
  {
    var moved := MoveTo(d, Src, Gz);
    var dropped := Sweep(moved, Raw, o.dropped);
    if o.named then [moved, dropped, MoveTo(dropped, Next, Rec)] else [moved, dropped]
  }

  /** The states from the write of the pending record on. */
  function ReplaceStates(ready: Dir, rec: Record, now: int, o: StoreOutcome): seq<Dir>
    requires Src in ready
  {
    var torn := if o.torn.Some? then ready[Next := File(o.torn.value, now)] else ready;
    if !o.written then [torn, Sweep(torn, Next, o.swept)]
    else
      var pending := ready[Next := File(Note(rec), now)];
      [torn, pending] + if o.moved then FinishStates(pending, o) else [Sweep(pending, Next, o.swept)]
  }

  function StoreStates(d: Dir, version: string, now: int, o: StoreOutcome): seq<Dir> {
    if Src !in d then [d]
    else [d, Settle(d, o.settled)] + ReplaceStates(Settle(d, o.settled), Describe(d[Src], version, true), now, o)
  }

  /** What the caller hands over: a gzip at Src that no other gzip of this store can be mistaken for, by
      the size and modification time that identify a stored file. */
  ghost predicate Installable(d: Dir) {
    && Src in d && d[Src].content.Blob?
    && (Gz in d && SizeOf(d[Gz]) == SizeOf(d[Src]) && d[Gz].modTime == d[Src].modTime ==>
          d[Gz].content == d[Src].content)
    && (Rec in d && d[Rec].content.Note? && d[Rec].content.rec.compressed && Describes(d[Rec].content.rec, d[Src]) ==>
          d[Rec].content.rec.sum == Of(d[Src].content.bytes))
  }

  /** The pending record is the only one, and giving it its own name fails. */
  predicate SettleFails(d: Dir, o: StoreOutcome) {
    ReadRecord(d, Rec).None? && ReadRecord(d, Next).Some? && !o.settled
  }

  lemma SettleKeepsRunnable(d: Dir, o: StoreOutcome)
    requires Installable(d) && Runnable(d) && !SettleFails(d, o)
    ensures var ready := Settle(d, o.settled);
            Runnable(ready) && ReadRecord(ready, Rec).Some? && Installable(ready)
  {
  }

  /** With its own name settled, the record does not depend on what happens to the pending name. */
  lemma PendingIsFree(ready: Dir, f: File)
    requires Runnable(ready) && ReadRecord(ready, Rec).Some?
    ensures Runnable(ready[Next := f]) && Runnable(ready - {Next})
  {
  }

  lemma FinishKeepsRunnable(pending: Dir, version: string, o: StoreOutcome)
    requires Installable(pending) && Runnable(pending) && ReadRecord(pending, Rec).Some?
    requires Next in pending && pending[Next].content == Note(Describe(pending[Src], version, true))
    ensures forall s | s in FinishStates(pending, o) :: Runnable(s)
    ensures o.named ==> Read(FinishStates(pending, o)[2]) == Some(Describe(pending[Src], version, true))
  {
    var rec := Describe(pending[Src], version, true);
    var moved := MoveTo(pending, Src, Gz);
    var dropped := Sweep(moved, Raw, o.dropped);
    assert moved[Gz] == pending[Src] && moved[Next] == pending[Next] && dropped[Gz] == moved[Gz];
    assert ReadRecord(moved, Next) == Some(rec) && ReadRecord(dropped, Next) == Some(rec);
    assert Runnable(moved);
    assert Runnable(dropped);
    if o.named {
      var done := MoveTo(dropped, Next, Rec);
      assert done[Rec] == dropped[Next] && done[Gz] == dropped[Gz];
      assert ReadRecord(done, Rec) == Some(rec);
    }
  }

  /** The same file at p, or none in both. */
  predicate SameAt(d: Dir, e: Dir, p: Path) { (p in e <==> p in d) && (p in d ==> e[p] == d[p]) }

  /** Wherever a kill or a power cut lands in StoreCompressed, whatever fails, a store that had a matching
      record of a runnable copy has one; and when every step went through, it is the new gzip's. */
  lemma StoreKeepsRunnable(d: Dir, version: string, now: int, o: StoreOutcome)
    requires Installable(d) && Runnable(d) && !SettleFails(d, o)
    ensures forall s | s in StoreStates(d, version, now, o) :: Runnable(s)
    ensures o.written && o.moved && o.named ==>
              var states, bytes := StoreStates(d, version, now, o), d[Src].content.bytes;
              Read(states[|states| - 1]) == Some(Record(version, true, |bytes|, d[Src].modTime, Of(bytes)))
  {
    SettleKeepsRunnable(d, o);
    assert Installable(d) && Settle(d, o.settled)[Src] == d[Src];
    var rec := Describe(d[Src], version, true);
    assert rec == Record(version, true, |d[Src].content.bytes|, d[Src].modTime, Of(d[Src].content.bytes));
    hide Runnable, Describe, Settle, Installable;
    ReplaceKeepsRunnable(Settle(d, o.settled), version, rec, now, o);
  }

  /** What the store leaves when it ends: the new gzip under its name, the unpacked binary gone and the record under its
      own name, or still pending, as the steps went; and nothing replaced, nor the record read another,
      when the new record or the rename failed. */
  lemma StoreLeaves(d: Dir, version: string, now: int, o: StoreOutcome)
    requires Src in d
    ensures var states := StoreStates(d, version, now, o);
            var end := states[|states| - 1];
            && (o.written && o.moved ==> Gz in end && end[Gz] == d[Src] && Src !in end)
            && (o.written && o.moved ==> if o.dropped then Raw !in end else SameAt(d, end, Raw))
            && (o.written && o.moved && o.named ==>
                  Next !in end && Rec in end && end[Rec].content == Note(Describe(d[Src], version, true)))
            && (o.written && o.moved && !o.named ==>
                  Next in end && end[Next].content == Note(Describe(d[Src], version, true)))
            && (!(o.written && o.moved) ==> SameAt(d, end, Raw) && SameAt(d, end, Gz) && SameAt(d, end, Src))
            && (!(o.written && o.moved) && Runnable(d) && !SettleFails(d, o) ==> Read(end) == Read(d))
  {
    hide Settle, SettleFails, Runnable, Describe, ReplaceStates, ReadRecord;
    SettleLeaves(d, o);
    ReplaceLeaves(Settle(d, o.settled), Describe(d[Src], version, true), now, o);
    var last := ReplaceStates(Settle(d, o.settled), Describe(d[Src], version, true), now, o);
    var states := StoreStates(d, version, now, o);
    assert states == [d, Settle(d, o.settled)] + last;
    assert states[|states| - 1] == last[|last| - 1];
  }

  lemma SettleLeaves(d: Dir, o: StoreOutcome)
    ensures var ready := Settle(d, o.settled);
            && SameAt(d, ready, Raw) && SameAt(d, ready, Gz) && SameAt(d, ready, Src)
            && (Runnable(d) && !SettleFails(d, o) ==> ReadRecord(ready, Rec).Some? && Read(ready) == Read(d))
  {
  }

  lemma ReplaceLeaves(ready: Dir, rec: Record, now: int, o: StoreOutcome)
    requires Src in ready
    ensures var states := ReplaceStates(ready, rec, now, o);
            states != [] &&
            var end := states[|states| - 1];
            && (o.written && o.moved ==> Gz in end && end[Gz] == ready[Src] && Src !in end)
            && (o.written && o.moved ==> if o.dropped then Raw !in end else SameAt(ready, end, Raw))
            && (o.written && o.moved && o.named ==> Next !in end && Rec in end && end[Rec].content == Note(rec))
            && (o.written && o.moved && !o.named ==> Next in end && end[Next].content == Note(rec))
            && (!(o.written && o.moved) ==>
                  && SameAt(ready, end, Raw) && SameAt(ready, end, Gz) && SameAt(ready, end, Src)
                  && ReadRecord(end, Rec) == ReadRecord(ready, Rec))
  {
    hide Describes;
  }

  lemma ReplaceKeepsRunnable(ready: Dir, version: string, rec: Record, now: int, o: StoreOutcome)
    requires Installable(ready) && Runnable(ready) && ReadRecord(ready, Rec).Some?
    requires rec == Describe(ready[Src], version, true)
    ensures forall s | s in ReplaceStates(ready, rec, now, o) :: Runnable(s)
    ensures o.written && o.moved && o.named ==>
              var states := ReplaceStates(ready, rec, now, o); Read(states[|states| - 1]) == Some(rec)
  {
    var torn := if o.torn.Some? then ready[Next := File(o.torn.value, now)] else ready;
    PendingIsFree(ready, if o.torn.Some? then File(o.torn.value, now) else File(Garbage, now));
    PendingIsFree(ready, File(Note(rec), now));
    assert torn - {Next} == ready - {Next};
    if o.written {
      var pending := ready[Next := File(Note(rec), now)];
      assert pending - {Next} == ready - {Next};
      assert ReadRecord(pending, Rec) == ReadRecord(ready, Rec);
      FinishKeepsRunnable(pending, version, o);
    }
    hide Runnable, ReadRecord;
  }

  /** And settle must not fail: with only a pending record, for a gzip the new one cannot be mistaken for,
      the record survives every cut exactly when the write of the new one never touches its name. */
  lemma FailedSettleLosesTheRecord(d: Dir, version: string, now: int, o: StoreOutcome)
    requires Installable(d) && Runnable(d) && SettleFails(d, o)
    requires o.torn.Some? ==> TornRecord(o.torn.value, Describe(d[Src], version, true))
    requires Gz in d ==> !Describes(Describe(d[Src], version, true), d[Gz])
    ensures (forall s | s in StoreStates(d, version, now, o) :: Runnable(s)) <==>
            o.torn.None? && !o.written && !o.swept
  {
    var states := StoreStates(d, version, now, o);
    assert Settle(d, o.settled) == d;
    if o.torn.Some? {
      assert states[2] == d[Next := File(o.torn.value, now)];
      assert states[2] in states;
    } else if o.written {
      assert states[3] == d[Next := File(Note(Describe(d[Src], version, true)), now)];
      assert states[3] in states;
    } else {
      assert states[3] == Sweep(d, Next, o.swept);
      assert states[3] in states;
    }
  }

  // ---- Unpack, RemoveUnpacked, Remove -------------------------------------------------------------

  datatype UnpackOutcome = UnpackOutcome(unmarked: bool, half: Content, inflated: bool, renamed: bool,
                                         tornMark: Content, marked: bool)

  type Inflater = Bytes -> Option<Bytes>

  predicate Reusable(d: Dir, sum: Digest) {
    Marker in d && d[Marker].content == Mark(sum) && Target in d
  }

  function MarkStates(copied: Dir, bytes: Bytes, now: int, o: UnpackOutcome): seq<Dir> {
    var torn := copied[Marker := File(o.tornMark, now)];
    if !o.marked then [torn] else [torn, copied[Marker := File(Mark(Of(bytes)), now)]]
  }

  /** The states of inflating bytes with digest sum over the copy, and whether it went through. */
  function InflateStates(d: Dir, inflate: Inflater, bytes: Bytes, now: int, o: UnpackOutcome): (seq<Dir>, bool) {
    if !o.unmarked then ([], false)
    else
      var bare := d - {Marker};
      var half := bare[Inflating := File(o.half, now)];
      if inflate(bytes).None? || !o.inflated then ([bare, half, half - {Inflating}], false)
      else
        var whole := bare[Inflating := File(Blob(inflate(bytes).value), now)];
        if !o.renamed then ([bare, half, whole], false)
        else
          var copied := MoveTo(whole, Inflating, Target);
          ([bare, half, whole, copied] + MarkStates(copied, bytes, now, o), o.marked)
  }

  function UnpackStates(d: Dir, inflate: Inflater, now: int, o: UnpackOutcome): (seq<Dir>, bool) {
    var r := Read(d);
    if r.None? || !r.value.compressed then ([d], false)
    else if Reusable(d, r.value.sum) then ([d], true)
    else if !d[Gz].content.Blob? || r.value.sum != Of(d[Gz].content.bytes) then ([d], false)
    else
      var (states, ok) := InflateStates(d, inflate, d[Gz].content.bytes, now, o);
      ([d] + states, ok)
  }

  /** The copy is what these bytes inflate to. */
  ghost predicate HoldsCopy(d: Dir, inflate: Inflater, bytes: Bytes) {
    inflate(bytes).Some? && Target in d && d[Target].content == Blob(inflate(bytes).value)
  }

  /** A marker that names a whole digest vouches for the copy beside it. */
  ghost predicate Vouched(d: Dir, inflate: Inflater) {
    Marker in d && d[Marker].content.Mark? && d[Marker].content.sum.Of? && Target in d ==>
      HoldsCopy(d, inflate, d[Marker].content.sum.bytes)
  }

  /** A cut-short marker is part of the digest, or already all of it. */
  ghost predicate TornMark(d: Dir, o: UnpackOutcome) {
    o.tornMark == Garbage || (o.tornMark.Mark? && o.tornMark.sum.Text?) ||
    (Gz in d && d[Gz].content.Blob? && o.tornMark == Mark(Of(d[Gz].content.bytes)))
  }

  lemma InflateVouches(d: Dir, inflate: Inflater, now: int, o: UnpackOutcome)
    requires Vouched(d, inflate) && Gz in d && d[Gz].content.Blob? && TornMark(d, o)
    ensures var (states, ok) := InflateStates(d, inflate, d[Gz].content.bytes, now, o);
            && (forall s | s in states :: Vouched(s, inflate))
            && (ok ==> states != [] && HoldsCopy(states[|states| - 1], inflate, d[Gz].content.bytes))
  {
    var bytes := d[Gz].content.bytes;
    if o.unmarked && inflate(bytes).Some? && o.inflated && o.renamed {
      var whole := (d - {Marker})[Inflating := File(Blob(inflate(bytes).value), now)];
      var copied := MoveTo(whole, Inflating, Target);
      assert copied[Target].content == Blob(inflate(bytes).value);
      assert Marker !in copied;
      assert Vouched(copied[Marker := File(o.tornMark, now)], inflate);
    }
  }

  /** Unpack answers with a copy only when that copy is what the gzip with the recorded digest inflates
      to, reused or fresh; and it leaves no state, to a kill, whose marker vouches for another copy. */
  lemma UnpackIsHonest(d: Dir, inflate: Inflater, now: int, o: UnpackOutcome)
    requires Vouched(d, inflate) && TornMark(d, o)
    ensures var (states, ok) := UnpackStates(d, inflate, now, o);
            && (forall s | s in states :: Vouched(s, inflate))
            && (ok && Read(d).value.sum.Of? ==>
                  HoldsCopy(states[|states| - 1], inflate, Read(d).value.sum.bytes))
  {
    var r := Read(d);
    if r.Some? && r.value.compressed && !Reusable(d, r.value.sum)
       && d[Gz].content.Blob? && r.value.sum == Of(d[Gz].content.bytes) {
      InflateVouches(d, inflate, now, o);
    }
  }

  /** The record r stands at p, and describes the file that is stored: the binary, or the gzip of a compressed one. */
  predicate StandsAt(d: Dir, p: Path, r: Record) {
    p in d && d[p].content == Note(r) &&
    var stored := if r.compressed then Gz else Raw;
    stored in d && r.modTime == d[stored].modTime &&
    r.size == if d[stored].content.Blob? then |d[stored].content.bytes| else 0
  }

  /** The record that is read is the one at its own name, else the pending one; one that does not describe the stored
      file counts as none. */
  lemma ReadIs(d: Dir, r: Record)
    ensures Read(d) == Some(r) <==> StandsAt(d, Rec, r) || (StandsAt(d, Next, r) && forall x :: !StandsAt(d, Rec, x))
  {
    if Rec in d && d[Rec].content.Note? {
      assert StandsAt(d, Rec, d[Rec].content.rec) <==> ReadRecord(d, Rec).Some?;
    }
  }

  /** When Unpack answers, and what it leaves: with a compressed copy on record, and either a copy already there whose
      marker has the recorded digest, which is then answered as it is; or a gzip with that digest that inflates, and
      every step of putting its content and a marker with the digest in place went through. */
  lemma UnpackAnswersIff(d: Dir, inflate: Inflater, now: int, o: UnpackOutcome)
    ensures var (states, ok) := UnpackStates(d, inflate, now, o);
            var end := states[|states| - 1];
            var compressed := Read(d).Some? && Read(d).value.compressed;
            var reused := compressed && Target in d && Marker in d && d[Marker].content == Mark(Read(d).value.sum);
            var whole := compressed && d[Gz].content.Blob? && Read(d).value.sum == Of(d[Gz].content.bytes);
            var made := whole && inflate(d[Gz].content.bytes).Some? &&
                        o.unmarked && o.inflated && o.renamed && o.marked;
            && (ok <==> reused || made)
            && (reused || !whole || !o.unmarked ==> states == [d])
            && (whole && !reused && o.unmarked && !ok ==> LeftUnmarked(d, end, inflate, d[Gz].content.bytes, o))
            && (made && !reused ==>
                  && Target in end && end[Target].content == Blob(inflate(d[Gz].content.bytes).value)
                  && Marker in end && end[Marker].content == Mark(Of(d[Gz].content.bytes)) && Inflating !in end
                  && forall p | p != Target && p != Marker && p != Inflating :: SameAt(d, end, p))
  {
    var r := Read(d);
    if r.Some? && r.value.compressed && !Reusable(d, r.value.sum) && d[Gz].content.Blob? &&
       r.value.sum == Of(d[Gz].content.bytes) {
      InflateAnswersIff(d, inflate, d[Gz].content.bytes, now, o);
    }
    hide Read, InflateStates;
  }

  /** After a failure the old copy stands without a marker, or the new one with what became of its marker. */
  ghost predicate LeftUnmarked(d: Dir, end: Dir, inflate: Inflater, bytes: Bytes, o: UnpackOutcome) {
    if inflate(bytes).Some? && o.inflated && o.renamed
    then HoldsCopy(end, inflate, bytes) && Marker in end && end[Marker].content == o.tornMark
    else SameAt(d, end, Target) && Marker !in end
  }

  lemma InflateAnswersIff(d: Dir, inflate: Inflater, bytes: Bytes, now: int, o: UnpackOutcome)
    ensures var (states, ok) := InflateStates(d, inflate, bytes, now, o);
            && (ok <==> inflate(bytes).Some? && o.unmarked && o.inflated && o.renamed && o.marked)
            && (states == [] <==> !o.unmarked)
            && (!ok && o.unmarked ==> var end := states[|states| - 1]; LeftUnmarked(d, end, inflate, bytes, o))
            && (ok ==> var end := states[|states| - 1];
                       && Target in end && end[Target].content == Blob(inflate(bytes).value)
                       && Marker in end && end[Marker].content == Mark(Of(bytes)) && Inflating !in end
                       && forall p | p != Target && p != Marker && p != Inflating :: SameAt(d, end, p))
  {
  }

  /** Removals one after another, each of which may fail. */
  function RemovalStates(d: Dir, ps: seq<Path>, gone: seq<bool>): seq<Dir>
    requires |ps| == |gone|
  {
    if ps == [] then [d]
    else [d] + RemovalStates(Sweep(d, ps[0], gone[0]), ps[1..], gone[1..])
  }

  const EVERYTHING := [Raw, Gz, Rec, Next, Target, Marker]
  const UNPACKED := [Target, Marker]

  lemma {:induction false} RemovalVouches(d: Dir, ps: seq<Path>, gone: seq<bool>, inflate: Inflater)
    requires |ps| == |gone| && Vouched(d, inflate)
    ensures forall s | s in RemovalStates(d, ps, gone) :: Vouched(s, inflate)
  {
    if ps != [] {
      var next := Sweep(d, ps[0], gone[0]);
      RemovalVouches(next, ps[1..], gone[1..], inflate);
    }
  }

  /** After them a file is there exactly when it was and no removal of it went through, and it is as it was. */
  lemma {:induction false} RemovalsTake(d: Dir, ps: seq<Path>, gone: seq<bool>, p: Path)
    requires |ps| == |gone|
    ensures var states := RemovalStates(d, ps, gone);
            var end := states[|states| - 1];
            && (p in end <==> p in d && !exists i :: 0 <= i < |ps| && ps[i] == p && gone[i])
            && (p in end ==> end[p] == d[p])
  {
    if ps != [] {
      RemovalsTake(Sweep(d, ps[0], gone[0]), ps[1..], gone[1..], p);
      if exists i :: 0 <= i < |ps| && ps[i] == p && gone[i] {
        var i :| 0 <= i < |ps| && ps[i] == p && gone[i];
        assert i > 0 ==> ps[1..][i - 1] == p && gone[1..][i - 1];
      }
      assert forall i | 0 <= i < |ps| - 1 :: ps[1..][i] == ps[i + 1] && gone[1..][i] == gone[i + 1];
    }
  }

  // ---- Runs with kills ----------------------------------------------------------------------------

  /** One operation, or what happens around them: a file of the store replaced by an installer or by
      wear, and a power cut, which empties runDir's tmpfs. */
  datatype Op =
    | Store(version: string, now: int, o: StoreOutcome)
    | Unpacking(at: int, how: UnpackOutcome)
    | Remove(gone: seq<bool>)
    | RemoveUnpacked(left: seq<bool>)
    | Replaced(p: Path, f: File)
    | PowerCut

  predicate InRunDir(p: Path) {
    p == Target || p == Marker || p == Inflating
  }

  ghost predicate Possible(d: Dir, op: Op) {
    match op
    case Unpacking(_, o) => TornMark(d, o)
    case Remove(gone) => |gone| == |EVERYTHING|
    case RemoveUnpacked(left) => |left| == |UNPACKED|
    case Replaced(p, _) => !InRunDir(p)
    case _ => true
  }

  ghost function States(d: Dir, inflate: Inflater, op: Op): seq<Dir>
    requires Possible(d, op)
  {
    match op
    case Store(version, now, o) => StoreStates(d, version, now, o)
    case Unpacking(now, o) => UnpackStates(d, inflate, now, o).0
    case Remove(gone) => RemovalStates(d, EVERYTHING, gone)
    case RemoveUnpacked(left) =>
      if Marker in d then RemovalStates(d, UNPACKED, left) else [d]
    case Replaced(p, f) => [d[p := f]]
    case PowerCut => [d - {Target, Marker, Inflating}]
  }

  /** Operations one after another, each cut at some state it passes through (its last one: not at all). */
  ghost predicate IsRun(d: Dir, inflate: Inflater, ops: seq<(Op, nat)>)
    decreases |ops|
  {
    ops != [] ==>
      && Possible(d, ops[0].0)
      && ops[0].1 < |States(d, inflate, ops[0].0)|
      && IsRun(States(d, inflate, ops[0].0)[ops[0].1], inflate, ops[1..])
  }

  ghost function Result(d: Dir, inflate: Inflater, ops: seq<(Op, nat)>): Dir
    requires IsRun(d, inflate, ops)
    decreases |ops|
  {
    if ops == [] then d else Result(States(d, inflate, ops[0].0)[ops[0].1], inflate, ops[1..])
  }

  lemma StoreLeavesRunDir(d: Dir, version: string, now: int, o: StoreOutcome, p: Path)
    requires InRunDir(p)
    ensures forall s | s in StoreStates(d, version, now, o) :: SameAt(d, s, p)
  {
    if Src in d {
      ReplaceLeavesRunDir(Settle(d, o.settled), Describe(d[Src], version, true), now, o, p);
      hide ReplaceStates, Describe;
    }
  }

  lemma ReplaceLeavesRunDir(ready: Dir, rec: Record, now: int, o: StoreOutcome, p: Path)
    requires InRunDir(p) && Src in ready
    ensures forall s | s in ReplaceStates(ready, rec, now, o) :: SameAt(ready, s, p)
  {
    var pending := ready[Next := File(Note(rec), now)];
    FinishLeavesRunDir(pending, o, p);
    hide FinishStates;
  }

  lemma FinishLeavesRunDir(d: Dir, o: StoreOutcome, p: Path)
    requires InRunDir(p) && Src in d && Next in d
    ensures forall s | s in FinishStates(d, o) :: SameAt(d, s, p)
  {
  }

  lemma OpVouches(d: Dir, inflate: Inflater, op: Op)
    requires Vouched(d, inflate) && Possible(d, op)
    ensures forall s | s in States(d, inflate, op) :: Vouched(s, inflate)
  {
    match op
    case Store(version, now, o) =>
      StoreLeavesRunDir(d, version, now, o, Marker);
      StoreLeavesRunDir(d, version, now, o, Target);
    case Unpacking(now, o) => UnpackIsHonest(d, inflate, now, o);
    case Remove(gone) => RemovalVouches(d, EVERYTHING, gone, inflate);
    case RemoveUnpacked(left) => RemovalVouches(d, UNPACKED, left, inflate);
    case Replaced(p, f) =>
    case PowerCut =>
  }

  /** After any run of stores, unpacks and removals, each possibly killed half way, Unpack still answers
      only with a copy that the gzip of the recorded digest inflates to. */
  lemma {:induction false} UnpackIsHonestAfterEveryRun(d: Dir, inflate: Inflater, ops: seq<(Op, nat)>, now: int,
                                                       o: UnpackOutcome)
    requires Vouched(d, inflate) && IsRun(d, inflate, ops) && TornMark(Result(d, inflate, ops), o)
    ensures var e := Result(d, inflate, ops);
            var (states, ok) := UnpackStates(e, inflate, now, o);
            ok && Read(e).value.sum.Of? ==> HoldsCopy(states[|states| - 1], inflate, Read(e).value.sum.bytes)
    decreases |ops|
  {
    if ops == [] {
      UnpackIsHonest(d, inflate, now, o);
    } else {
      OpVouches(d, inflate, ops[0].0);
      UnpackIsHonestAfterEveryRun(States(d, inflate, ops[0].0)[ops[0].1], inflate, ops[1..], now, o);
    }
  }

  /** Installs, each of a gzip put at Src for it, with settle's rename working, and anything that happens to
      the unpacked copy in between. */
  ghost predicate InstallsAndUse(d: Dir, inflate: Inflater, ops: seq<(Op, nat)>)
    requires IsRun(d, inflate, ops)
    decreases |ops|
  {
    ops != [] ==>
      var op := ops[0].0;
      && (op.Store? || op.Unpacking? || op.RemoveUnpacked? || op.PowerCut? || (op.Replaced? && op.p == Src))
      && (op.Store? && Src in d ==> Installable(d) && !SettleFails(d, op.o))
      && InstallsAndUse(States(d, inflate, op)[ops[0].1], inflate, ops[1..])
  }

  /** The store proper is the same in both: all but the run directory and the file handed over. */
  ghost predicate SameStore(d: Dir, e: Dir) { forall p | !InRunDir(p) && p != Src :: SameAt(d, e, p) }

  lemma SameStoreReads(d: Dir, e: Dir)
    requires SameStore(d, e)
    ensures Read(e) == Read(d) && Runnable(e) == Runnable(d)
  {
    assert SameAt(d, e, Raw) && SameAt(d, e, Gz) && SameAt(d, e, Rec) && SameAt(d, e, Next);
  }

  lemma UnpackLeavesStore(d: Dir, inflate: Inflater, now: int, o: UnpackOutcome)
    ensures forall s | s in UnpackStates(d, inflate, now, o).0 :: SameStore(d, s)
  {
    hide Read, Reusable;
  }

  lemma {:induction false} RemovalLeavesStore(d: Dir, ps: seq<Path>, gone: seq<bool>)
    requires |ps| == |gone| && forall p | p in ps :: InRunDir(p)
    ensures forall s | s in RemovalStates(d, ps, gone) :: SameStore(d, s)
  {
    if ps != [] {
      RemovalLeavesStore(Sweep(d, ps[0], gone[0]), ps[1..], gone[1..]);
    }
  }

  lemma UseLeavesStore(d: Dir, inflate: Inflater, op: Op)
    requires Possible(d, op) && !op.Store? && !op.Remove? && (op.Replaced? ==> op.p == Src)
    ensures forall s | s in States(d, inflate, op) :: SameStore(d, s)
  {
    match op
    case Unpacking(now, o) => UnpackLeavesStore(d, inflate, now, o);
    case RemoveUnpacked(left) => RemovalLeavesStore(d, UNPACKED, left);
    case Replaced(p, f) =>
    case PowerCut =>
  }

  /** Installs, retried over killed ones and one after another, never lose the runnable copy. */
  lemma {:induction false} InstallsSurviveKills(d: Dir, inflate: Inflater, ops: seq<(Op, nat)>)
    requires IsRun(d, inflate, ops) && InstallsAndUse(d, inflate, ops) && Runnable(d)
    ensures Runnable(Result(d, inflate, ops))
    decreases |ops|
  {
    if ops != [] {
      var op := ops[0].0;
      var next := States(d, inflate, op)[ops[0].1];
      if op.Store? && Src in d {
        StoreKeepsRunnable(d, op.version, op.now, op.o);
      } else if op.Store? {
        assert next == d;
      } else {
        UseLeavesStore(d, inflate, op);
        SameStoreReads(d, next);
      }
      hide Runnable, States, Possible, Installable, SettleFails;
      InstallsSurviveKills(next, inflate, ops[1..]);
    }
  }

  /** And after such a run the record is there and its digest whole, so Unpack's answer is always the stored
      gzip's own content. */
  lemma UnpackAfterInstalls(d: Dir, inflate: Inflater, ops: seq<(Op, nat)>, now: int, o: UnpackOutcome)
    requires IsRun(d, inflate, ops) && InstallsAndUse(d, inflate, ops) && Runnable(d) && Vouched(d, inflate)
    requires TornMark(Result(d, inflate, ops), o)
    ensures var e := Result(d, inflate, ops);
            var (states, ok) := UnpackStates(e, inflate, now, o);
            Runnable(e) && (ok ==> Read(e).value.compressed &&
                                   HoldsCopy(states[|states| - 1], inflate, e[Gz].content.bytes))
  {
    InstallsSurviveKills(d, inflate, ops);
    UnpackIsHonestAfterEveryRun(d, inflate, ops, now, o);
    hide HoldsCopy, Vouched;
  }

  // ---- The operations, step by step ---------------------------------------------------------------

  /** The directories, and every state they have been in. */
  class Shelf {
    var files: Dir
    ghost var seen: seq<Dir>

    constructor (files: Dir)
      ensures this.files == files && seen == []
    {
      this.files := files;
      seen := [];
    }

    method Visit()
      modifies `seen
      ensures seen == old(seen) + [files]
    {
      seen := seen + [files];
    }

    method Put(p: Path, f: File)
      modifies this
      ensures files == old(files)[p := f] && seen == old(seen) + [files]
    {
      files := files[p := f];
      Visit();
    }

    method Rename(from: Path, to: Path)
      requires from in files
      modifies this
      ensures files == MoveTo(old(files), from, to) && seen == old(seen) + [files]
    {
      var f := files[from];
      files := files - {from};
      files := files[to := f];
      Visit();
    }

    method Delete(p: Path, ok: bool)
      modifies this
      ensures files == Sweep(old(files), p, ok) && seen == old(seen) + [files]
    {
      if ok {
        files := files - {p};
      }
      Visit();
    }

    method SettleRecord(ok: bool)
      modifies this
      ensures files == Settle(old(files), ok) && seen == old(seen) + [files]
    {
      if ReadRecord(files, Rec).Some? {
        Visit();
        return;
      }
      if ReadRecord(files, Next).Some? && ok {
        Rename(Next, Rec);
      } else {
        Visit();
      }
    }

    method StoreCompressed(version: string, now: int, o: StoreOutcome) returns (ok: bool)
      modifies this
      ensures seen == old(seen) + StoreStates(old(files), version, now, o)
      ensures files == seen[|seen| - 1]
      ensures ok == (Src in old(files) && o.written && o.moved && o.named)
    {
      Visit();
      if Src !in files {
        return false;
      }
      var rec := Describe(files[Src], version, true);
      SettleRecord(o.settled);
      ok := Replace(rec, now, o);
    }

    method Replace(rec: Record, now: int, o: StoreOutcome) returns (ok: bool)
      requires Src in files
      modifies this
      ensures seen == old(seen) + ReplaceStates(old(files), rec, now, o)
      ensures files == seen[|seen| - 1] && ok == (o.written && o.moved && o.named)
    {
      if o.torn.Some? {
        Put(Next, File(o.torn.value, now));
      } else {
        Visit();
      }
      if !o.written {
        Delete(Next, o.swept);
        return false;
      }
      Put(Next, File(Note(rec), now));
      assert files == old(files)[Next := File(Note(rec), now)];
      if !o.moved {
        Delete(Next, o.swept);
        return false;
      }
      hide FinishStates;
      ok := Finish(o);
    }

    method Finish(o: StoreOutcome) returns (ok: bool)
      requires Src in files && Next in files
      modifies this
      ensures seen == old(seen) + FinishStates(old(files), o) && files == seen[|seen| - 1] && ok == o.named
    {
      Rename(Src, Gz);
      Delete(Raw, o.dropped);
      if !o.named {
        return false;
      }
      Rename(Next, Rec);
      return true;
    }

    method Unpack(inflate: Inflater, now: int, o: UnpackOutcome) returns (ok: bool)
      modifies this
      ensures var (states, done) := UnpackStates(old(files), inflate, now, o);
              seen == old(seen) + states && ok == done && files == seen[|seen| - 1]
    {
      Visit();
      var r := Read(files);
      if r.None? || !r.value.compressed {
        return false;
      }
      if Marker in files && files[Marker].content == Mark(r.value.sum) && Target in files {
        return true;
      }
      var gz := files[Gz];
      if !gz.content.Blob? || r.value.sum != Of(gz.content.bytes) {
        return false;
      }
      ok := Inflate(inflate, gz.content.bytes, now, o);
    }

    method Inflate(inflate: Inflater, bytes: Bytes, now: int, o: UnpackOutcome) returns (ok: bool)
      requires seen != [] && seen[|seen| - 1] == files
      modifies this
      ensures var (states, done) := InflateStates(old(files), inflate, bytes, now, o);
              seen == old(seen) + states && ok == done && files == seen[|seen| - 1]
    {
      if !o.unmarked {
        return false;
      }
      Delete(Marker, true);
      ghost var bare := files;
      Put(Inflating, File(o.half, now));
      var x := inflate(bytes);
      if x.None? || !o.inflated {
        Delete(Inflating, true);
        return false;
      }
      Put(Inflating, File(Blob(x.value), now));
      assert files == bare[Inflating := File(Blob(x.value), now)];
      if !o.renamed {
        return false;
      }
      Rename(Inflating, Target);
      ok := MarkCopy(bytes, now, o);
    }

    method MarkCopy(bytes: Bytes, now: int, o: UnpackOutcome) returns (ok: bool)
      modifies this
      ensures seen == old(seen) + MarkStates(old(files), bytes, now, o) && ok == o.marked && files == seen[|seen| - 1]
    {
      Put(Marker, File(o.tornMark, now));
      if !o.marked {
        return false;
      }
      Put(Marker, File(Mark(Of(bytes)), now));
      assert files == old(files)[Marker := File(Mark(Of(bytes)), now)];
      return true;
    }
  }
}
