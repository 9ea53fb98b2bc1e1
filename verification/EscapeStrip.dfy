/** The core's log path in internal/core/singbox.go: the writer that removes escape sequences byte by byte,
    and the ring of lines it feeds. */
module EscapeStrip {

  type Byte = x: int | 0 <= x < 256

  const BEL: Byte := 0x07
  const LF: Byte := 0x0a
  const CR: Byte := 0x0d
  const ESC: Byte := 0x1b
  const BACKSLASH: Byte := 0x5c

  datatype State = Text | Esc | Csi | Str | StrEsc | Nf

  /** The bytes after ESC that open OSC, DCS, SOS, PM and APC. */
  predicate OpensString(b: Byte) {
    b == 0x5d || b == 0x50 || b == 0x58 || b == 0x5e || b == 0x5f
  }

  function FeedText(b: Byte): (State, seq<Byte>) {
    if b == ESC then (Esc, []) else (Text, [b])
  }

  function FeedEsc(b: Byte): (State, seq<Byte>) {
    if b == 0x5b then (Csi, [])
    else if OpensString(b) then (Str, [])
    else if 0x20 <= b <= 0x2f then (Nf, [])
    else if 0x30 <= b <= 0x7e then (Text, [])
    else FeedText(b)
  }

  /** One byte: the next state, and the text it lets through. */
  function Feed(s: State, b: Byte): (State, seq<Byte>) {
    match s
    case Text => FeedText(b)
    case Esc => FeedEsc(b)
    case Csi =>
      if 0x40 <= b <= 0x7e then (Text, []) else if 0x20 <= b <= 0x3f then (Csi, []) else FeedText(b)
    case Nf =>
      if 0x30 <= b <= 0x7e then (Text, []) else if 0x20 <= b <= 0x2f then (Nf, []) else FeedText(b)
    case Str =>
      if b == BEL then (Text, []) else if b == ESC then (StrEsc, []) else if b < 0x20 then FeedText(b) else (Str, [])
    case StrEsc =>
      if b == BACKSLASH then (Text, []) else FeedEsc(b)
  }

  function Run(s: State, p: seq<Byte>): (State, seq<Byte>) {
    if p == [] then (s, [])
    else
      var (t, out) := Run(s, p[..|p| - 1]);
      var (u, more) := Feed(t, p[|p| - 1]);
      (u, out + more)
  }

  function Strip(p: seq<Byte>): seq<Byte> {
    Run(Text, p).1
  }

  class Writer {
    var state: State
    var out: seq<Byte>
    var sink: seq<Byte>

    constructor ()
      ensures state == Text && sink == []
    {
      state, out, sink := Text, [], [];
    }

    /** feed. abort is the re-feed from the text state. */
    method FeedByte(b: Byte)
      modifies `state, `out
      ensures (state, out) == (Feed(old(state), b).0, old(out) + Feed(old(state), b).1)
      decreases if state == StrEsc then 2 else if state == Text then 0 else 1, 0
    {
      assert out + [] == out;
      match state {
        case Text =>
          if b == ESC {
            state := Esc;
            return;
          }
          out := out + [b];
        case Esc =>
          if b == 0x5b {
            state := Csi;
          } else if OpensString(b) {
            state := Str;
          } else if 0x20 <= b <= 0x2f {
            state := Nf;
          } else if 0x30 <= b <= 0x7e {
            state := Text;
          } else {
            Abort(b);
          }
        case Csi =>
          if 0x40 <= b <= 0x7e {
            state := Text;
          } else if !(0x20 <= b <= 0x3f) {
            Abort(b);
          }
        case Nf =>
          if 0x30 <= b <= 0x7e {
            state := Text;
          } else if !(0x20 <= b <= 0x2f) {
            Abort(b);
          }
        case Str =>
          if b == BEL {
            state := Text;
          } else if b == ESC {
            state := StrEsc;
          } else if b < 0x20 {
            Abort(b);
          }
        case StrEsc =>
          if b == BACKSLASH {
            state := Text;
            return;
          }
          state := Esc;
          FeedByte(b);
      }
    }

    method Abort(b: Byte)
      requires state != Text
      modifies `state, `out
      ensures (state, out) == (FeedText(b).0, old(out) + FeedText(b).1)
      decreases 0, 1
    {
      state := Text;
      FeedByte(b);
    }

    /** Write: everything is taken, what is text is passed on in one piece. When the sink fails to take it the
        text is lost, nothing counts as written, and the state has moved on all the same. */
    method Write(p: seq<Byte>, fails: bool) returns (n: nat)
      modifies this
      ensures var (s, text) := Run(old(state), p);
              state == s &&
              (if fails && text != [] then n == 0 && sink == old(sink) else n == |p| && sink == old(sink) + text)
    {
      out := [];
      for i := 0 to |p|
        invariant (state, out) == Run(old(state), p[..i]) && sink == old(sink)
      {
        assert p[..i + 1][..i] == p[..i];
        FeedByte(p[i]);
      }
      assert p[..|p|] == p;
      assert sink + [] == sink;
      if |out| > 0 {
        if fails { return 0; }
        sink := sink + out;
      }
      n := |p|;
    }
  }

  /** The writes of a stream, in any pieces, leave the same text. */
  lemma {:induction false} SplitsDoNotMatter(s: State, x: seq<Byte>, y: seq<Byte>)
    ensures Run(s, x + y) == (Run(Run(s, x).0, y).0, Run(s, x).1 + Run(Run(s, x).0, y).1)
  {
    if y == [] {
      assert x + y == x && Run(s, x).1 + [] == Run(s, x).1;
    } else {
      SplitsDoNotMatter(s, x, y[..|y| - 1]);
      assert (x + y)[..|x + y| - 1] == x + y[..|y| - 1];
      var (t, out) := Run(s, x);
      var (u, more) := Run(t, y[..|y| - 1]);
      assert (out + more) + Feed(u, y[|y| - 1]).1 == out + (more + Feed(u, y[|y| - 1]).1);
    }
  }

  /** No escape byte ever gets through. */
  lemma {:induction false} OutputHasNoEscape(s: State, p: seq<Byte>)
    ensures ESC !in Run(s, p).1
  {
    if p != [] {
      OutputHasNoEscape(s, p[..|p| - 1]);
    }
  }

  /** Text without an escape byte is left as it is. */
  lemma {:induction false} PlainTextIsKept(p: seq<Byte>)
    requires ESC !in p
    ensures Run(Text, p) == (Text, p)
  {
    if p != [] {
      PlainTextIsKept(p[..|p| - 1]);
      assert p[|p| - 1] in p;
      assert p == p[..|p| - 1] + [p[|p| - 1]];
    }
  }

  lemma StripIsIdempotent(p: seq<Byte>)
    ensures Strip(Strip(p)) == Strip(p)
  {
    OutputHasNoEscape(Text, p);
    PlainTextIsKept(Strip(p));
  }

  /** A newline ends whatever is in progress and comes through, so lines are stripped on their own: a
      sequence the core never finished loses at most the rest of its own line. */
  lemma LinesAreIndependent(x: seq<Byte>, y: seq<Byte>)
    ensures Strip(x + [LF] + y) == Strip(x) + [LF] + Strip(y)
  {
    SplitsDoNotMatter(Text, x + [LF], y);
    SplitsDoNotMatter(Text, x, [LF]);
    RunOne(Run(Text, x).0, LF);
  }

  // ---- Complete sequences -------------------------------------------------------------------------

  ghost predicate AllIn(p: seq<Byte>, lo: int, hi: int) {
    forall i | 0 <= i < |p| :: lo <= p[i] <= hi
  }

  /** A control sequence, section 5.4 of ECMA-48. */
  ghost predicate ControlSequence(p: seq<Byte>) {
    |p| >= 3 && p[0] == ESC && p[1] == 0x5b && AllIn(p[2..|p| - 1], 0x20, 0x3f) && 0x40 <= p[|p| - 1] <= 0x7e
  }

  /** A control string, section 5.6, closed by BEL or ST and with no control byte in it. */
  ghost predicate ControlString(p: seq<Byte>) {
    |p| >= 3 && p[0] == ESC && OpensString(p[1]) &&
    ((p[|p| - 1] == BEL && AllIn(p[2..|p| - 1], 0x20, 0xff)) ||
     (|p| >= 4 && p[|p| - 2] == ESC && p[|p| - 1] == BACKSLASH && AllIn(p[2..|p| - 2], 0x20, 0xff)))
  }

  ghost predicate NfSequence(p: seq<Byte>) {
    |p| >= 3 && p[0] == ESC && AllIn(p[1..|p| - 1], 0x20, 0x2f) && 0x30 <= p[|p| - 1] <= 0x7e
  }

  ghost predicate TwoByteEscape(p: seq<Byte>) {
    |p| == 2 && p[0] == ESC && 0x30 <= p[1] <= 0x7e && p[1] != 0x5b && !OpensString(p[1])
  }

  ghost predicate CompleteSequence(p: seq<Byte>) {
    ControlSequence(p) || ControlString(p) || NfSequence(p) || TwoByteEscape(p)
  }

  lemma {:induction false} BodyStays(s: State, p: seq<Byte>)
    requires s == Csi ==> AllIn(p, 0x20, 0x3f)
    requires s == Str ==> AllIn(p, 0x20, 0xff)
    requires s == Nf ==> AllIn(p, 0x20, 0x2f)
    requires s == Csi || s == Str || s == Nf
    ensures Run(s, p) == (s, [])
  {
    if p != [] {
      BodyStays(s, p[..|p| - 1]);
      assert Feed(s, p[|p| - 1]) == (s, []) && [] + Feed(s, p[|p| - 1]).1 == [];
    }
  }

  lemma RunOne(s: State, b: Byte)
    ensures Run(s, [b]) == Feed(s, b)
  {
    assert [b][..0] == [] && [] + Feed(s, b).1 == Feed(s, b).1;
  }

  /** Opening bytes, a body that stays, a closing: nothing comes out and text follows. */
  lemma Bracketed(open: seq<Byte>, s: State, body: seq<Byte>, close: seq<Byte>)
    requires Run(Text, open) == (s, []) && Run(s, body) == (s, []) && Run(s, close) == (Text, [])
    ensures Run(Text, open + body + close) == (Text, [])
  {
    SplitsDoNotMatter(Text, open + body, close);
    SplitsDoNotMatter(Text, open, body);
  }

  lemma OpensTo(b: Byte)
    ensures Run(Text, [ESC, b]) == (FeedEsc(b).0, FeedEsc(b).1)
  {
    SplitsDoNotMatter(Text, [ESC], [b]);
    RunOne(Text, ESC);
    RunOne(Esc, b);
    assert [ESC, b] == [ESC] + [b];
  }

  // ---- Control strings that do not vanish ---------------------------------------------------------

  ghost predicate NoEnd(body: seq<Byte>) { ESC !in body && BEL !in body }

  /** Whatever comes through early on comes through. */
  lemma OutputStays(s: State, x: seq<Byte>, y: seq<Byte>)
    requires Run(s, x).1 != []
    ensures Run(s, x + y).1 != []
  {
    SplitsDoNotMatter(s, x, y);
  }

  lemma {:induction false} ControlByteEscapes(body: seq<Byte>, i: nat)
    requires NoEnd(body) && i < |body| && body[i] < 0x20
    ensures Run(Str, body).1 != []
  {
    var init, last := body[..|body| - 1], body[|body| - 1];
    assert body == init + [last] && last in body;
    if k :| 0 <= k < |init| && init[k] < 0x20 {
      ControlByteEscapes(init, k);
      OutputStays(Str, init, [last]);
    } else {
      BodyStays(Str, init);
    }
  }

  lemma StringVanishesIff(o: Byte, body: seq<Byte>, close: seq<Byte>)
    requires OpensString(o) && NoEnd(body) && Run(Str, close) == (Text, [])
    ensures Run(Text, [ESC, o] + body + close) == (Text, []) <==> AllIn(body, 0x20, 0xff)
  {
    OpensTo(o);
    if AllIn(body, 0x20, 0xff) {
      BodyStays(Str, body);
      Bracketed([ESC, o], Str, body, close);
    } else {
      var i :| 0 <= i < |body| && body[i] < 0x20;
      ControlByteEscapes(body, i);
      SplitsDoNotMatter(Text, [ESC, o], body);
      OutputStays(Text, [ESC, o] + body, close);
    }
  }

  /** A control string closed by BEL or by ST vanishes exactly when no control byte stands in it. Section 5.6
      of ECMA-48 allows 00/08 to 00/13 in a command string; those end it here. */
  lemma ControlStringVanishesIff(o: Byte, body: seq<Byte>)
    requires OpensString(o) && NoEnd(body)
    ensures Run(Text, [ESC, o] + body + [BEL]) == (Text, []) <==> AllIn(body, 0x20, 0xff)
    ensures Run(Text, [ESC, o] + body + [ESC, BACKSLASH]) == (Text, []) <==> AllIn(body, 0x20, 0xff)
  {
    RunOne(Str, BEL);
    StringVanishesIff(o, body, [BEL]);
    SplitsDoNotMatter(Str, [ESC], [BACKSLASH]);
    RunOne(Str, ESC);
    RunOne(StrEsc, BACKSLASH);
    assert [ESC, BACKSLASH] == [ESC] + [BACKSLASH];
    StringVanishesIff(o, body, [ESC, BACKSLASH]);
  }

  const TAB: Byte := 0x09

  /** An ESC inside a control string ends it: ST is its proper end, and before any other byte the ESC opens what
      follows, which is read as if the string had never been. */
  lemma EscapeEndsAString(o: Byte, a: seq<Byte>, b: Byte, rest: seq<Byte>)
    requires OpensString(o) && AllIn(a, 0x20, 0xff)
    ensures Run(Text, [ESC, o] + a + [ESC, b] + rest) ==
            if b == BACKSLASH then Run(Text, rest) else Run(Text, [ESC, b] + rest)
  {
    var open, close := [ESC, o] + a, [ESC, b];
    OpensTo(o);
    BodyStays(Str, a);
    SplitsDoNotMatter(Text, [ESC, o], a);
    SplitsDoNotMatter(Str, [ESC], [b]);
    RunOne(Str, ESC);
    RunOne(StrEsc, b);
    assert close == [ESC] + [b];
    OpensTo(b);
    hide Run, AllIn;
    SplitsDoNotMatter(Text, open, close);
    SplitsDoNotMatter(Text, open + close, rest);
    SplitsDoNotMatter(Text, close, rest);
    assert [] + Run(Text, rest).1 == Run(Text, rest).1;
  }

  /** ESC ] A TAB B BEL: the rest of the string shows. */
  lemma TabEndsAString()
    ensures Strip([ESC, 0x5d, 0x41, TAB, 0x42, BEL]) == [TAB, 0x42, BEL]
  {
    var whole: seq<Byte> := [ESC, 0x5d, 0x41, TAB, 0x42, BEL];
    OpensTo(0x5d);
    assert whole == [ESC, 0x5d] + [0x41] + [TAB] + [0x42, BEL];
    RunOne(Str, 0x41);
    RunOne(Str, TAB);
    PlainTextIsKept([0x42, BEL]);
    SplitsDoNotMatter(Text, [ESC, 0x5d] + [0x41] + [TAB], [0x42, BEL]);
    SplitsDoNotMatter(Text, [ESC, 0x5d] + [0x41], [TAB]);
    SplitsDoNotMatter(Text, [ESC, 0x5d], [0x41]);
  }

  // ---- Sequences that are broken off --------------------------------------------------------------

  /** A bare ESC, or a control or nF sequence still without its final byte, as opposed to a control string. */
  ghost predicate Unfinished(p: seq<Byte>) {
    p == [ESC]
    || (|p| >= 2 && p[0] == ESC && p[1] == 0x5b && AllIn(p[2..], 0x20, 0x3f))
    || (|p| >= 2 && p[0] == ESC && AllIn(p[1..], 0x20, 0x2f))
  }

  lemma UnfinishedTo(p: seq<Byte>)
    requires Unfinished(p)
    ensures Run(Text, p) == (if p == [ESC] then Esc else if p[1] == 0x5b then Csi else Nf, [])
  {
    if p == [ESC] {
      RunOne(Text, ESC);
    } else {
      var s := if p[1] == 0x5b then Csi else Nf;
      assert p[1] != 0x5b ==> p[1] == p[1..][0] && p[2..] == p[1..][1..];
      OpensTo(p[1]);
      BodyStays(s, p[2..]);
      hide Run, AllIn;
      SplitsDoNotMatter(Text, [ESC, p[1]], p[2..]);
      assert p == [ESC, p[1]] + p[2..];
    }
  }

  /** A byte that cannot go on with it, a control byte, a non-ASCII one or a fresh ESC, breaks it off: what there is of
      it is dropped, and the byte and all that follows are read as if it had never been. */
  lemma BrokenOffIsDropped(p: seq<Byte>, b: Byte, rest: seq<Byte>)
    requires Unfinished(p) && !(0x20 <= b <= 0x7e)
    ensures Strip(p + [b] + rest) == Strip([b] + rest)
  {
    UnfinishedTo(p);
    var s := Run(Text, p).0;
    RunOne(s, b);
    RunOne(Text, b);
    assert Feed(s, b) == Feed(Text, b);
    hide Run, Unfinished;
    SplitsDoNotMatter(Text, p, [b]);
    SplitsDoNotMatter(Text, p + [b], rest);
    SplitsDoNotMatter(Text, [b], rest);
    assert [] + Run(s, [b]).1 == Run(s, [b]).1;
  }

  // ---- Complete sequences vanish ------------------------------------------------------------------

  lemma ControlSequenceIsConsumed(p: seq<Byte>)
    requires ControlSequence(p)
    ensures Run(Text, p) == (Text, [])
  {
    var body, last := p[2..|p| - 1], p[|p| - 1];
    OpensTo(p[1]);
    BodyStays(Csi, body);
    RunOne(Csi, last);
    hide Run;
    assert p == [ESC, 0x5b] + body + [last];
    Bracketed([ESC, 0x5b], Csi, body, [last]);
  }

  lemma NfSequenceIsConsumed(p: seq<Byte>)
    requires NfSequence(p)
    ensures Run(Text, p) == (Text, [])
  {
    var body, last := p[2..|p| - 1], p[|p| - 1];
    assert p[1] == p[1..|p| - 1][0] && body == p[1..|p| - 1][1..];
    OpensTo(p[1]);
    BodyStays(Nf, body);
    RunOne(Nf, last);
    hide Run;
    assert p == [ESC, p[1]] + body + [last];
    Bracketed([ESC, p[1]], Nf, body, [last]);
  }

  lemma ControlStringIsConsumed(p: seq<Byte>)
    requires ControlString(p)
    ensures Run(Text, p) == (Text, [])
  {
    hide Run;
    if p[|p| - 1] == BEL && AllIn(p[2..|p| - 1], 0x20, 0xff) {
      var body := p[2..|p| - 1];
      assert p == [ESC, p[1]] + body + [BEL];
      ControlStringVanishesIff(p[1], body);
    } else {
      var body := p[2..|p| - 2];
      assert p == [ESC, p[1]] + body + [ESC, BACKSLASH];
      ControlStringVanishesIff(p[1], body);
    }
  }

  lemma SequenceIsConsumed(p: seq<Byte>)
    requires CompleteSequence(p)
    ensures Run(Text, p) == (Text, [])
  {
    hide Run, ControlSequence, ControlString, NfSequence;
    if ControlSequence(p) {
      ControlSequenceIsConsumed(p);
    } else if ControlString(p) {
      ControlStringIsConsumed(p);
    } else if NfSequence(p) {
      NfSequenceIsConsumed(p);
    } else {
      OpensTo(p[1]);
      assert p == [ESC, p[1]];
    }
  }

  /** A complete sequence in the middle of text vanishes, and nothing else does. */
  lemma SequencesVanish(before: seq<Byte>, p: seq<Byte>, rest: seq<Byte>)
    requires CompleteSequence(p) && Run(Text, before).0 == Text
    ensures Strip(before + p + rest) == Strip(before) + Strip(rest)
  {
    SplitsDoNotMatter(Text, before + p, rest);
    SplitsDoNotMatter(Text, before, p);
    SequenceIsConsumed(p);
  }

  // ---- The ring of lines --------------------------------------------------------------------------

  function TrimCR(line: seq<Byte>): seq<Byte> {
    if line != [] && line[|line| - 1] == CR then TrimCR(line[..|line| - 1]) else line
  }

  /** Every line of a stream, without its line ending, blank ones left out; and what follows the last one. */
  function LinesOf(stream: seq<Byte>): (seq<seq<Byte>>, seq<Byte>) {
    if stream == [] then ([], [])
    else
      var (lines, open) := LinesOf(stream[..|stream| - 1]);
      if stream[|stream| - 1] != LF then (lines, open + [stream[|stream| - 1]])
      else (if TrimCR(open) == [] then lines else lines + [TrimCR(open)], [])
  }

  predicate SuffixOf<T(==)>(s: seq<T>, all: seq<T>) {
    |s| <= |all| && s == all[|all| - |s|..]
  }

  lemma {:induction false} NoNewlineOpens(stream: seq<Byte>, p: seq<Byte>)
    requires OneLine(p)
    ensures LinesOf(stream + p) == (LinesOf(stream).0, LinesOf(stream).1 + p)
  {
    if p == [] {
      assert stream + p == stream && LinesOf(stream).1 + p == LinesOf(stream).1;
    } else {
      NoNewlineOpens(stream, p[..|p| - 1]);
      assert (stream + p)[..|stream + p| - 1] == stream + p[..|p| - 1];
      assert p[|p| - 1] in p;
      assert (LinesOf(stream).1 + p[..|p| - 1]) + [p[|p| - 1]] == LinesOf(stream).1 + p;
    }
  }

  lemma LineCloses(stream: seq<Byte>, line: seq<Byte>)
    requires OneLine(line)
    ensures var (lines, open) := LinesOf(stream);
            LinesOf(stream + line + [LF]) ==
            (if TrimCR(open + line) == [] then lines else lines + [TrimCR(open + line)], [])
  {
    NoNewlineOpens(stream, line);
    assert (stream + line + [LF])[..|stream + line|] == stream + line;
  }

  /** A stream of lines without a line ending inside, each ended by one. */
  function Ended(ls: seq<seq<Byte>>): seq<Byte> {
    if ls == [] then [] else Ended(ls[..|ls| - 1]) + ls[|ls| - 1] + [LF]
  }

  /** Trimming takes carriage returns off the end, all of them and nothing else. */
  lemma {:induction false} TrimsAllCR(line: seq<Byte>)
    ensures var t := TrimCR(line);
            && |t| <= |line| && t == line[..|t|] && (t != [] ==> t[|t| - 1] != CR)
            && forall i | |t| <= i < |line| :: line[i] == CR
  {
    if line != [] && line[|line| - 1] == CR { TrimsAllCR(line[..|line| - 1]); }
  }

  function Shown(ls: seq<seq<Byte>>): seq<seq<Byte>> {
    if ls == [] then []
    else
      var last := ls[|ls| - 1];
      Shown(ls[..|ls| - 1]) + if forall i | 0 <= i < |last| :: last[i] == CR then [] else [TrimCR(last)]
  }

  /** Whatever lines a stream is made of, those are its lines, but for the ones with nothing but carriage returns; and
      what follows the last is open. */
  lemma {:induction false} LinesAreTheLines(ls: seq<seq<Byte>>, open: seq<Byte>)
    requires OneLine(open) && forall l | l in ls :: OneLine(l)
    ensures LinesOf(Ended(ls) + open) == (Shown(ls), open)
  {
    hide LinesOf, TrimCR, OneLine;
    NoNewlineOpens(Ended(ls), open);
    NothingLogged();
    assert [] + open == open;
    if ls != [] {
      var init, last := ls[..|ls| - 1], ls[|ls| - 1];
      assert last in ls && forall l | l in init :: l in ls;
      NoLF();
      LinesAreTheLines(init, []);
      assert Ended(init) + [] == Ended(init) && [] + last == last;
      LineCloses(Ended(init), last);
      BlankLine(last);
      assert Ended(ls) == Ended(init) + last + [LF];
      assert Shown(ls) == if TrimCR(last) == [] then Shown(init) else Shown(init) + [TrimCR(last)];
    }
  }

  lemma NoLF()
    ensures OneLine([])
  {
  }

  lemma BlankLine(line: seq<Byte>)
    ensures TrimCR(line) == [] <==> forall i | 0 <= i < |line| :: line[i] == CR
  {
    TrimsAllCR(line);
    if TrimCR(line) != [] { assert line[|TrimCR(line)| - 1] != CR; }
    hide TrimCR;
  }

  /** ringLog: the most recent lines, between size and twice size of them once there are that many. */
  class RingLog {
    const size: nat
    var lines: seq<seq<Byte>>
    var buf: seq<Byte>
    ghost var stream: seq<Byte>

    ghost predicate Valid()
      reads this
    {
      && SuffixOf(lines, LinesOf(stream).0)
      && |lines| <= 2 * size
      && (|lines| >= size || lines == LinesOf(stream).0)
      && buf == LinesOf(stream).1
    }

    constructor (size: nat)
      ensures Valid() && stream == [] && this.size == size
    {
      hide LinesOf;
      this.size := size;
      lines, buf, stream := [], [], [];
      new;
      NothingLogged();
    }

    method Write(p: seq<Byte>) returns (n: nat)
      requires Valid()
      modifies this
      ensures Valid() && stream == old(stream) + p && n == |p|
    {
      hide LinesOf, TrimCR, OneLine;
      var rest := p;
      var i := IndexOfLF(rest);
      while i >= 0
        invariant Valid() && stream + rest == old(stream) + p
        invariant i < |rest| && OneLine(if i < 0 then rest else rest[..i]) && (i >= 0 ==> rest[i] == LF)
        decreases |rest|
      {
        LineTaken(stream, rest, i);
        AddLine(rest[..i]);
        rest := rest[i + 1..];
        i := IndexOfLF(rest);
      }
      AddOpen(rest);
      n := |p|;
    }

    /** What follows the last line ending waits for the next write. */
    method AddOpen(rest: seq<Byte>)
      requires Valid() && OneLine(rest)
      modifies this
      ensures Valid() && stream == old(stream) + rest
    {
      NoNewlineOpens(stream, rest);
      hide LinesOf, TrimCR;
      stream := stream + rest;
      buf := buf + rest;
    }

    /** One whole line: append it, and compact to the most recent ones at twice the size. */
    method AddLine(piece: seq<Byte>)
      requires Valid() && OneLine(piece)
      modifies this
      ensures Valid() && stream == old(stream) + piece + [LF]
    {
      hide LinesOf, TrimCR;
      LineCloses(stream, piece);
      var line := TrimCR(buf + piece);
      stream := stream + piece + [LF];
      buf := [];
      if line != [] {
        lines := lines + [line];
        if |lines| > 2 * size {
          lines := lines[|lines| - size..];
        }
      }
    }
  }

  lemma NothingLogged()
    ensures LinesOf([]) == ([], []) && SuffixOf([], LinesOf([]).0)
  {
  }

  predicate OneLine(p: seq<Byte>) { LF !in p }

  lemma LineTaken(stream: seq<Byte>, rest: seq<Byte>, i: nat)
    requires i < |rest| && rest[i] == LF
    ensures (stream + rest[..i] + [LF]) + rest[i + 1..] == stream + rest
  {
  }

  /** bytes.IndexByte. */
  method IndexOfLF(p: seq<Byte>) returns (i: int)
    ensures i < |p| && OneLine(if i < 0 then p else p[..i]) && (i >= 0 ==> p[i] == LF)
  {
    for k := 0 to |p|
      invariant OneLine(p[..k])
    {
      if p[k] == LF { return k; }
      assert p[..k + 1] == p[..k] + [p[k]];
    }
    assert p[..|p|] == p;
    i := -1;
  }
}
