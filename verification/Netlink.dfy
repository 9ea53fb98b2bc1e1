/** The ctnetlink wire format of internal/ctflush/nlmsg.go: attributes encoded into a request and parsed
    out of a dump. Headers are in the host's byte order, whichever it is: big says which. */
module Netlink {
  import opened Wrappers

  type Byte = x: int | 0 <= x < 256

  const NLMSG_HDR_LEN := 16
  const NFGEN_HDR_LEN := 4
  const NLA_HDR_LEN := 4
  const NLMSG_ERROR := 2
  const NLMSG_DONE := 3
  const NLA_TYPE_MASK := 0x4000
  const NFNL_SUBSYS_CT := 1
  const CT_MSG_NEW := 0
  const CT_MSG_DELETE := 2
  const CTA_TUPLE_ORIG := 1
  const CTA_MARK := 8
  const CTA_ID := 12
  const CTA_ZONE := 18
  const CTA_TUPLE_IP := 1
  const CTA_IP_V4_SRC := 1
  const CTA_IP_V4_DST := 2
  const CTA_IP_V6_SRC := 3
  const CTA_IP_V6_DST := 4
  const DELETE_FLAGS := 0x5

  function Align(n: nat): (a: nat)
    ensures n <= a < n + 4 && a % 4 == 0
  {
    (n + 3) / 4 * 4
  }

  function Put16(x: nat, big: bool): (b: seq<Byte>)
    requires x < 0x1_0000
    ensures |b| == 2
  {
    if big then [x / 256, x % 256] else [x % 256, x / 256]
  }

  function Get16(b: seq<Byte>, big: bool): (x: nat)
    requires |b| == 2
    ensures x < 0x1_0000
  {
    var first: int, second: int := b[0], b[1];
    if big then first * 256 + second else second * 256 + first
  }

  function Put32(x: nat, big: bool): (b: seq<Byte>)
    requires x < 0x1_0000_0000
    ensures |b| == 4
  {
    var hi, lo := Put16(x / 0x1_0000, big), Put16(x % 0x1_0000, big);
    if big then hi + lo else lo + hi
  }

  function Get32(b: seq<Byte>, big: bool): (x: nat)
    requires |b| == 4
    ensures x < 0x1_0000_0000
  {
    var first, second := Get16(b[..2], big), Get16(b[2..], big);
    if big then first * 0x1_0000 + second else second * 0x1_0000 + first
  }

  function Zeros(n: nat): (z: seq<Byte>)
    ensures |z| == n && forall i | 0 <= i < n :: z[i] == 0
  {
    seq(n, i => 0)
  }

  function Pad(a: seq<Byte>): (p: seq<Byte>)
    ensures |p| == Align(|a|) && p[..|a|] == a
  {
    a + Zeros(Align(|a|) - |a|)
  }

  function Flat(attrs: seq<seq<Byte>>): seq<Byte> {
    if attrs == [] then [] else Flat(attrs[..|attrs| - 1]) + Pad(attrs[|attrs| - 1])
  }

  lemma {:induction false} FlatFront(attrs: seq<seq<Byte>>)
    requires attrs != []
    ensures Flat(attrs) == Pad(attrs[0]) + Flat(attrs[1..])
  {
    hide Pad;
    if |attrs| == 1 {
      assert attrs[..0] == [] && attrs[1..] == [];
    } else {
      var before, last := attrs[..|attrs| - 1], attrs[|attrs| - 1];
      FlatFront(before);
      assert before[1..] == attrs[1..][..|attrs| - 2] && before[0] == attrs[0];
      assert Flat(attrs) == (Pad(attrs[0]) + Flat(before[1..])) + Pad(last);
    }
  }

  lemma {:induction false} FlatIsAligned(attrs: seq<seq<Byte>>)
    ensures |Flat(attrs)| % 4 == 0
  {
    if attrs != [] {
      var init, last := attrs[..|attrs| - 1], attrs[|attrs| - 1];
      assert |Flat(attrs)| == |Flat(init)| + |Pad(last)|;
      FlatIsAligned(init);
      SumIsAligned(|Flat(init)|, |Pad(last)|);
      hide Flat, Pad, Align;
    }
  }

  lemma SumIsAligned(a: nat, b: nat)
    requires a % 4 == 0 && b % 4 == 0
    ensures (a + b) % 4 == 0
  {
  }

  function Header(n: nat, msgType: nat, flags: nat, sequence: nat, family: Byte, big: bool): (h: seq<Byte>)
    requires n < 0x1_0000_0000 && msgType < 0x100 && flags < 0x1_0000 && sequence < 0x1_0000_0000
    ensures |h| == NLMSG_HDR_LEN + NFGEN_HDR_LEN
  {
    Put32(n, big) + Put16(NFNL_SUBSYS_CT * 256 + msgType, big) + Put16(flags, big) + Put32(sequence, big) +
    Zeros(4) + [family] + Zeros(3)
  }

  function Request(msgType: nat, flags: nat, sequence: nat, family: Byte, attrs: seq<seq<Byte>>, big: bool): seq<Byte>
    requires 20 + |Flat(attrs)| < 0x1_0000_0000 && msgType < 0x100 && flags < 0x1_0000 && sequence < 0x1_0000_0000
  {
    Header(20 + |Flat(attrs)|, msgType, flags, sequence, family, big) + Flat(attrs)
  }

  /** encodeRequest: one buffer of the exact size, the header, then each attribute at a moving offset. */
  method EncodeRequest(msgType: nat, flags: nat, sequence: nat, family: Byte, attrs: seq<seq<Byte>>, big: bool)
    returns (b: array<Byte>)
    requires 20 + |Flat(attrs)| < 0x1_0000_0000 && msgType < 0x100 && flags < 0x1_0000 && sequence < 0x1_0000_0000
    ensures fresh(b) && b[..] == Request(msgType, flags, sequence, family, attrs, big)
  {
    hide Header, Pad, Align, Flat;
    var n := Size(attrs);
    b := new Byte[n](_ => 0);
    var header := Header(n, msgType, flags, sequence, family, big);
    forall i | 0 <= i < 20 {
      b[i] := header[i];
    }
    assert b[..20] == header;
    AppendAttrs(b, header, attrs);
  }

  method AppendAttrs(b: array<Byte>, header: seq<Byte>, attrs: seq<seq<Byte>>)
    requires b.Length == 20 + |Flat(attrs)| && b[..20] == header
    requires forall i | 20 <= i < b.Length :: b[i] == 0
    modifies b
    ensures b[..] == header + Flat(attrs)
  {
    hide Pad, Align;
    var off := 20;
    for k := 0 to |attrs|
      invariant off == 20 + |Flat(attrs[..k])| <= b.Length
      invariant b[..off] == header + Flat(attrs[..k])
      invariant forall i | off <= i < b.Length :: b[i] == 0
    {
      assert attrs[..k + 1][..k] == attrs[..k];
      FlatPrefix(attrs, k + 1);
      var a := attrs[k];
      CopyAt(b, off, a);
      off := off + Align(|a|);
      assert b[..off] == (header + Flat(attrs[..k])) + Pad(a);
    }
    assert attrs[..|attrs|] == attrs;
  }

  method Size(attrs: seq<seq<Byte>>) returns (n: nat)
    ensures n == 20 + |Flat(attrs)|
  {
    n := NLMSG_HDR_LEN + NFGEN_HDR_LEN;
    for k := 0 to |attrs|
      invariant n == 20 + |Flat(attrs[..k])|
    {
      assert attrs[..k + 1][..k] == attrs[..k];
      n := n + Align(|attrs[k]|);
    }
    assert attrs[..|attrs|] == attrs;
  }

  method CopyAt(b: array<Byte>, off: nat, a: seq<Byte>)
    requires off + Align(|a|) <= b.Length && forall i | off <= i < b.Length :: b[i] == 0
    modifies b
    ensures b[..off] == old(b[..off]) && b[off..off + Align(|a|)] == Pad(a)
    ensures forall i | off + Align(|a|) <= i < b.Length :: b[i] == 0
  {
    forall i | 0 <= i < |a| {
      b[off + i] := a[i];
    }
    assert forall i | 0 <= i < |a| :: b[off + i] == a[i];
    assert forall i | off + |a| <= i < b.Length :: b[i] == 0;
    assert forall i | 0 <= i < Align(|a|) :: b[off..off + Align(|a|)][i] == Pad(a)[i];
  }

  lemma {:induction false} FlatPrefix(attrs: seq<seq<Byte>>, k: nat)
    requires k <= |attrs|
    ensures |Flat(attrs[..k])| <= |Flat(attrs)|
  {
    if k == |attrs| {
      assert attrs[..k] == attrs;
    } else {
      var before := attrs[..|attrs| - 1];
      FlatPrefix(before, k);
      assert before[..k] == attrs[..k];
    }
  }

  // ---- Parsing ------------------------------------------------------------------------------------

  datatype Attr = Attr(typ: nat, payload: seq<Byte>, raw: seq<Byte>)

  /** The length an attribute carries, and its type with the flag bits dropped. */
  function LenOf(b: seq<Byte>, big: bool): nat
    requires |b| >= NLA_HDR_LEN
  {
    Get16(b[..2], big)
  }

  function TypeOf(b: seq<Byte>, big: bool): nat
    requires |b| >= NLA_HDR_LEN
  {
    Get16(b[2..4], big) % NLA_TYPE_MASK
  }

  function AttrOf(raw: seq<Byte>, big: bool): Attr
    requires |raw| >= NLA_HDR_LEN
  {
    Attr(TypeOf(raw, big), raw[NLA_HDR_LEN..], raw)
  }

  function Rest(b: seq<Byte>, l: nat): seq<Byte> {
    if Align(l) < |b| then b[Align(l)..] else []
  }

  /** The attributes read, and whether the buffer was well-formed to its end. */
  function ParseAttrs(b: seq<Byte>, big: bool): (seq<Attr>, bool)
    decreases |b|
  {
    if |b| < NLA_HDR_LEN then ([], true)
    else
      var l := LenOf(b, big);
      if l < NLA_HDR_LEN || l > |b| then ([], false)
      else
        var (more, ok) := ParseAttrs(Rest(b, l), big);
        ([AttrOf(b[..l], big)] + more, ok)
  }

  function Joined(out: seq<Attr>, more: (seq<Attr>, bool)): (seq<Attr>, bool) {
    (out + more.0, more.1)
  }

  lemma ParseStep(out: seq<Attr>, b: seq<Byte>, big: bool)
    requires |b| >= NLA_HDR_LEN && NLA_HDR_LEN <= LenOf(b, big) <= |b|
    ensures var l := LenOf(b, big);
            Joined(out, ParseAttrs(b, big)) == Joined(out + [AttrOf(b[..l], big)], ParseAttrs(Rest(b, l), big))
  {
    var l := LenOf(b, big);
    var one, more := [AttrOf(b[..l], big)], ParseAttrs(Rest(b, l), big);
    assert out + (one + more.0) == (out + one) + more.0;
  }

  /** parseAttrs. */
  method ParseAttrsLoop(buf: seq<Byte>, big: bool) returns (out: seq<Attr>, ok: bool)
    ensures (out, ok) == ParseAttrs(buf, big)
  {
    hide LenOf, AttrOf, Align;
    var b := buf;
    out := [];
    assert out + ParseAttrs(b, big).0 == ParseAttrs(b, big).0;
    while |b| >= NLA_HDR_LEN
      invariant Joined(out, ParseAttrs(b, big)) == ParseAttrs(buf, big)
      decreases |b|
    {
      var l := LenOf(b, big);
      if l < NLA_HDR_LEN || l > |b| {
        assert out + [] == out;
        return out, false;
      }
      ParseStep(out, b, big);
      out := out + [AttrOf(b[..l], big)];
      if Align(l) < |b| {
        b := b[Align(l)..];
      } else {
        b := [];
      }
    }
    assert out + [] == out;
    ok := true;
  }

  /** An attribute that carries its own length. */
  predicate SelfSized(a: seq<Byte>, big: bool) {
    NLA_HDR_LEN <= |a| && LenOf(a, big) == |a|
  }

  lemma ParseOne(a: seq<Byte>, rest: seq<Byte>, big: bool)
    requires SelfSized(a, big)
    ensures ParseAttrs(Pad(a) + rest, big) == ([AttrOf(a, big)] + ParseAttrs(rest, big).0, ParseAttrs(rest, big).1)
  {
    var b := Pad(a) + rest;
    assert b[..2] == Pad(a)[..|a|][..2] == a[..2];
    assert b[..|a|] == Pad(a)[..|a|] == a;
    if rest == [] {
      assert ParseAttrs(rest, big) == ([], true);
    } else {
      assert b[Align(|a|)..] == rest;
    }
  }

  function AttrsOf(attrs: seq<seq<Byte>>, big: bool): seq<Attr>
    requires forall i | 0 <= i < |attrs| :: SelfSized(attrs[i], big)
  {
    if attrs == [] then []
    else
      assert SelfSized(attrs[0], big);
      [AttrOf(attrs[0], big)] + AttrsOf(attrs[1..], big)
  }

  /** Attributes that carry their own length come back byte for byte, whatever the padding between them. */
  lemma {:induction false} AttrsRoundTrip(attrs: seq<seq<Byte>>, big: bool)
    requires forall i | 0 <= i < |attrs| :: SelfSized(attrs[i], big)
    ensures ParseAttrs(Flat(attrs), big) == (AttrsOf(attrs, big), true)
  {
    if attrs != [] {
      FlatFront(attrs);
      ParseOne(attrs[0], Flat(attrs[1..]), big);
      AttrsRoundTrip(attrs[1..], big);
    }
  }

  /** ... and so do they out of a whole request. */
  lemma RequestRoundTrip(msgType: nat, flags: nat, sequence: nat, family: Byte, attrs: seq<seq<Byte>>, big: bool)
    requires 20 + |Flat(attrs)| < 0x1_0000_0000 && msgType < 0x100 && flags < 0x1_0000 && sequence < 0x1_0000_0000
    requires forall i | 0 <= i < |attrs| :: SelfSized(attrs[i], big)
    ensures ParseAttrs(Request(msgType, flags, sequence, family, attrs, big)[20..], big) == (AttrsOf(attrs, big), true)
  {
    assert Request(msgType, flags, sequence, family, attrs, big)[20..] == Flat(attrs);
    AttrsRoundTrip(attrs, big);
  }

  // ---- Entries and deletes ------------------------------------------------------------------------

  /** An entry: its addresses, its mark and its raw attributes; tuple is empty when there is none. */
  datatype Entry = Entry(family: Byte, src: Option<seq<Byte>>, dst: Option<seq<Byte>>, mark: nat, tuple: seq<Byte>,
                         zone: seq<Byte>, id: seq<Byte>)

  predicate NamesTuple(e: Entry, big: bool) {
    |e.tuple| > NLA_HDR_LEN && LenOf(e.tuple, big) == |e.tuple| && TypeOf(e.tuple, big) == CTA_TUPLE_ORIG
  }

  function DeleteAttrs(e: Entry): seq<seq<Byte>> {
    [e.tuple] + (if |e.id| > 0 then [e.id] else []) + (if |e.zone| > 0 then [e.zone] else [])
  }

  function DeleteRequest(sequence: nat, e: Entry, big: bool): Option<seq<Byte>>
    requires sequence < 0x1_0000_0000 && 20 + |Flat(DeleteAttrs(e))| < 0x1_0000_0000
  {
    if NamesTuple(e, big) then Some(Request(CT_MSG_DELETE, DELETE_FLAGS, sequence, e.family, DeleteAttrs(e), big))
    else None
  }

  /** A delete that is sent always leads with the dumped original tuple, so it is never the kernel's
      flush-everything request; whatever the id and the zone hold. */
  lemma DeleteLeadsWithTuple(sequence: nat, e: Entry, big: bool)
    requires sequence < 0x1_0000_0000 && 20 + |Flat(DeleteAttrs(e))| < 0x1_0000_0000
    requires DeleteRequest(sequence, e, big).Some?
    ensures var attrs := ParseAttrs(DeleteRequest(sequence, e, big).value[20..], big).0;
            attrs != [] && attrs[0].raw == e.tuple && attrs[0].typ == CTA_TUPLE_ORIG && attrs[0].payload != []
  {
    var all := DeleteAttrs(e);
    var req := DeleteRequest(sequence, e, big).value;
    assert req[20..] == Flat(all);
    FlatFront(all);
    ParseOne(e.tuple, Flat(all[1..]), big);
  }

  /** The entry after one address of its tuple. */
  function ReadAddress(e: Entry, ip: Attr): Entry {
    if (ip.typ == CTA_IP_V4_SRC && |ip.payload| == 4) || (ip.typ == CTA_IP_V6_SRC && |ip.payload| == 16) then
      e.(src := Some(ip.payload))
    else if (ip.typ == CTA_IP_V4_DST && |ip.payload| == 4) || (ip.typ == CTA_IP_V6_DST && |ip.payload| == 16) then
      e.(dst := Some(ip.payload))
    else e
  }

  function ReadAddresses(e: Entry, ips: seq<Attr>): Entry {
    if ips == [] then e else ReadAddress(ReadAddresses(e, ips[..|ips| - 1]), ips[|ips| - 1])
  }

  /** After the attributes of a tuple so far; none when an address list is malformed. */
  function ReadTuple(e: Entry, inner: seq<Attr>, big: bool): Option<Entry> {
    if inner == [] then Some(e)
    else
      var before, t := ReadTuple(e, inner[..|inner| - 1], big), inner[|inner| - 1];
      if before.None? || t.typ != CTA_TUPLE_IP then before
      else
        var (ips, ok) := ParseAttrs(t.payload, big);
        if ok then Some(ReadAddresses(before.value, ips)) else None
  }

  function ReadAttr(e: Entry, a: Attr, big: bool): Option<Entry> {
    if a.typ == CTA_TUPLE_ORIG then
      var (inner, ok) := ParseAttrs(a.payload, big);
      if ok then ReadTuple(e.(tuple := a.raw), inner, big) else None
    else if a.typ == CTA_MARK then Some(if |a.payload| == 4 then e.(mark := Get32(a.payload, true)) else e)
    else if a.typ == CTA_ZONE then Some(e.(zone := a.raw))
    else if a.typ == CTA_ID then Some(if |a.payload| == 4 then e.(id := a.raw) else e)
    else Some(e)
  }

  /** The entry after the attributes of a dump message so far. */
  function ReadAttrs(e: Entry, attrs: seq<Attr>, big: bool): Option<Entry> {
    if attrs == [] then Some(e)
    else
      var before := ReadAttrs(e, attrs[..|attrs| - 1], big);
      if before.None? then None else ReadAttr(before.value, attrs[|attrs| - 1], big)
  }

  function Blank(family: Byte): Entry { Entry(family, None, None, 0, [], [], []) }

  function ParseEntry(family: Byte, payload: seq<Byte>, big: bool): Option<Entry> {
    if |payload| < NFGEN_HDR_LEN then None
    else
      var (attrs, ok) := ParseAttrs(payload[NFGEN_HDR_LEN..], big);
      var e := ReadAttrs(Blank(family), attrs, big);
      if !ok || e.None? || e.value.tuple == [] then None else e
  }

  /** parseEntry. */
  method ParseEntryLoop(family: Byte, payload: seq<Byte>, big: bool) returns (r: Option<Entry>)
    ensures r == ParseEntry(family, payload, big)
  {
    hide Get32, ReadTuple;
    if |payload| < NFGEN_HDR_LEN { return None; }
    var attrs, ok := ParseAttrsLoop(payload[NFGEN_HDR_LEN..], big);
    if !ok { return None; }
    var e := Blank(family);
    for i := 0 to |attrs|
      invariant ReadAttrs(Blank(family), attrs[..i], big) == Some(e)
    {
      assert attrs[..i + 1][..i] == attrs[..i];
      if ReadAttrs(Blank(family), attrs[..i + 1], big).None? { NoneStays(Blank(family), attrs, i + 1, big); }
      var a := attrs[i];
      if a.typ == CTA_TUPLE_ORIG {
        var inner;
        inner, ok := ParseAttrsLoop(a.payload, big);
        if !ok { return None; }
        var t := TupleLoop(e.(tuple := a.raw), inner, big);
        if t.None? { return None; }
        e := t.value;
      } else if a.typ == CTA_MARK {
        if |a.payload| == 4 { e := e.(mark := Get32(a.payload, true)); }
      } else if a.typ == CTA_ZONE {
        e := e.(zone := a.raw);
      } else if a.typ == CTA_ID && |a.payload| == 4 {
        e := e.(id := a.raw);
      }
    }
    assert attrs[..|attrs|] == attrs;
    return if e.tuple == [] then None else Some(e);
  }

  /** Its loop over a tuple, and over each address list in it. */
  method TupleLoop(e0: Entry, inner: seq<Attr>, big: bool) returns (r: Option<Entry>)
    ensures r == ReadTuple(e0, inner, big)
  {
    hide ReadAddress;
    var e := e0;
    for i := 0 to |inner|
      invariant ReadTuple(e0, inner[..i], big) == Some(e)
    {
      assert inner[..i + 1][..i] == inner[..i];
      if ReadTuple(e0, inner[..i + 1], big).None? { NoTupleStays(e0, inner, i + 1, big); }
      if inner[i].typ != CTA_TUPLE_IP { continue; }
      var ips, ok := ParseAttrsLoop(inner[i].payload, big);
      if !ok { return None; }
      ghost var was := e;
      for k := 0 to |ips|
        invariant e == ReadAddresses(was, ips[..k])
      {
        assert ips[..k + 1][..k] == ips[..k];
        e := ReadAddress(e, ips[k]);
      }
      assert ips[..|ips|] == ips;
    }
    assert inner[..|inner|] == inner;
    return Some(e);
  }

  lemma {:induction false} NoneStays(e: Entry, attrs: seq<Attr>, n: nat, big: bool)
    requires n <= |attrs| && ReadAttrs(e, attrs[..n], big).None?
    ensures ReadAttrs(e, attrs, big).None?
  {
    if n == |attrs| {
      assert attrs[..n] == attrs;
    } else {
      assert attrs[..|attrs| - 1][..n] == attrs[..n];
      NoneStays(e, attrs[..|attrs| - 1], n, big);
    }
  }

  lemma {:induction false} NoTupleStays(e: Entry, inner: seq<Attr>, n: nat, big: bool)
    requires n <= |inner| && ReadTuple(e, inner[..n], big).None?
    ensures ReadTuple(e, inner, big).None?
  {
    if n == |inner| {
      assert inner[..n] == inner;
    } else {
      assert inner[..|inner| - 1][..n] == inner[..n];
      NoTupleStays(e, inner[..|inner| - 1], n, big);
    }
  }

  lemma {:induction false} ParsedAttrsAreSized(b: seq<Byte>, big: bool)
    ensures forall a | a in ParseAttrs(b, big).0 :: SelfSized(a.raw, big) && a == AttrOf(a.raw, big)
    decreases |b|
  {
    if |b| >= NLA_HDR_LEN && NLA_HDR_LEN <= LenOf(b, big) <= |b| {
      var l := LenOf(b, big);
      ParsedAttrsAreSized(Rest(b, l), big);
      assert b[..l][..2] == b[..2];
    }
  }

  // ---- What an entry says -------------------------------------------------------------------------

  /** The attributes that give an entry its raw tuple, mark, zone and id, and the addresses that give it a source and a
      destination. */
  datatype Field = Tuple | Mark | Zone | Id | Source | Destination

  predicate Gives(k: Field, a: Attr) {
    match k
    case Tuple => a.typ == 1
    case Mark => a.typ == 8 && |a.payload| == 4
    case Zone => a.typ == 18
    case Id => a.typ == 12 && |a.payload| == 4
    case Source => (a.typ == 1 && |a.payload| == 4) || (a.typ == 3 && |a.payload| == 16)
    case Destination => (a.typ == 2 && |a.payload| == 4) || (a.typ == 4 && |a.payload| == 16)
  }

  ghost predicate Last(k: Field, attrs: seq<Attr>, i: int) {
    0 <= i < |attrs| && Gives(k, attrs[i]) && forall j | i < j < |attrs| :: !Gives(k, attrs[j])
  }

  ghost predicate NoneGives(k: Field, attrs: seq<Attr>) { forall a | a in attrs :: !Gives(k, a) }

  /** The addresses of a tuple, of all its address lists. */
  function AddressesIn(inner: seq<Attr>, big: bool): seq<Attr> {
    if inner == [] then []
    else
      var t := inner[|inner| - 1];
      AddressesIn(inner[..|inner| - 1], big) + if t.typ == CTA_TUPLE_IP then ParseAttrs(t.payload, big).0 else []
  }

  /** And of all tuples of a message. */
  function Addresses(attrs: seq<Attr>, big: bool): seq<Attr> {
    if attrs == [] then []
    else
      var a := attrs[|attrs| - 1];
      Addresses(attrs[..|attrs| - 1], big) +
      if a.typ == CTA_TUPLE_ORIG then AddressesIn(ParseAttrs(a.payload, big).0, big) else []
  }

  /** A 32-bit number in network order. */
  function Number(b: seq<Byte>): nat
    requires |b| == 4
  {
    var b0: int, b1: int, b2: int, b3: int := b[0], b[1], b[2], b[3];
    ((b0 * 256 + b1) * 256 + b2) * 256 + b3
  }

  /** The fields are what the last attribute for each gives, and stay as in e where there is none. */
  ghost predicate SaysFields(e: Entry, r: Entry, attrs: seq<Attr>) {
    && r.family == e.family
    && (forall i | Last(Tuple, attrs, i) :: r.tuple == attrs[i].raw) && (NoneGives(Tuple, attrs) ==> r.tuple == e.tuple)
    && (forall i | Last(Mark, attrs, i) :: r.mark == Number(attrs[i].payload))
    && (NoneGives(Mark, attrs) ==> r.mark == e.mark)
    && (forall i | Last(Zone, attrs, i) :: r.zone == attrs[i].raw) && (NoneGives(Zone, attrs) ==> r.zone == e.zone)
    && (forall i | Last(Id, attrs, i) :: r.id == attrs[i].raw) && (NoneGives(Id, attrs) ==> r.id == e.id)
  }

  ghost predicate SaysAddresses(e: Entry, r: Entry, ips: seq<Attr>) {
    && (forall i | Last(Source, ips, i) :: r.src == Some(ips[i].payload)) && (NoneGives(Source, ips) ==> r.src == e.src)
    && (forall i | Last(Destination, ips, i) :: r.dst == Some(ips[i].payload))
    && (NoneGives(Destination, ips) ==> r.dst == e.dst)
  }

  lemma OneMore(k: Field, attrs: seq<Attr>, a: Attr)
    ensures forall i :: Last(k, attrs + [a], i) <==> if Gives(k, a) then i == |attrs| else Last(k, attrs, i)
    ensures NoneGives(k, attrs + [a]) <==> NoneGives(k, attrs) && !Gives(k, a)
    ensures (attrs + [a])[|attrs|] == a && forall i | Last(k, attrs, i) :: (attrs + [a])[i] == attrs[i]
  {
    hide Gives;
    forall i ensures Last(k, attrs + [a], i) <==> if Gives(k, a) then i == |attrs| else Last(k, attrs, i) {
      assert (attrs + [a])[|attrs|] == a && forall j | 0 <= j < |attrs| :: (attrs + [a])[j] == attrs[j];
    }
  }

  /** Reading addresses touches nothing else. */
  predicate SameButAddresses(e: Entry, r: Entry) { r == e.(src := r.src, dst := r.dst) }

  lemma AddressSays(e: Entry, r: Entry, ips: seq<Attr>, a: Attr)
    requires SaysAddresses(e, r, ips)
    ensures SaysAddresses(e, ReadAddress(r, a), ips + [a]) && SameButAddresses(r, ReadAddress(r, a))
  {
    OneMore(Source, ips, a);
    OneMore(Destination, ips, a);
    hide Last, NoneGives;
  }

  lemma {:induction false} AddressesSay(e: Entry, r: Entry, ips: seq<Attr>, more: seq<Attr>)
    requires SaysAddresses(e, r, ips)
    ensures SaysAddresses(e, ReadAddresses(r, more), ips + more) && SameButAddresses(r, ReadAddresses(r, more))
  {
    hide SaysAddresses, ReadAddress;
    if more == [] {
      assert ips + more == ips;
    } else {
      var init, last := more[..|more| - 1], more[|more| - 1];
      AddressesSay(e, r, ips, init);
      assert ips + more == (ips + init) + [last];
      AddressSays(e, ReadAddresses(r, init), ips + init, last);
    }
  }

  lemma {:induction false} TupleSays(e: Entry, r: Entry, ips: seq<Attr>, inner: seq<Attr>, big: bool)
    requires SaysAddresses(e, r, ips)
    ensures var s := ReadTuple(r, inner, big);
            s.Some? ==> SaysAddresses(e, s.value, ips + AddressesIn(inner, big)) && SameButAddresses(r, s.value)
  {
    hide SaysAddresses, ReadAddresses;
    if inner == [] {
      assert ips + [] == ips;
    } else {
      var init, t := inner[..|inner| - 1], inner[|inner| - 1];
      TupleSays(e, r, ips, init, big);
      var before, more := ips + AddressesIn(init, big), ParseAttrs(t.payload, big).0;
      var s := ReadTuple(r, init, big);
      if s.Some? && t.typ == CTA_TUPLE_IP { AddressesSay(e, s.value, before, more); }
      assert ips + (AddressesIn(init, big) + more) == before + more;
      assert ips + (AddressesIn(init, big) + []) == before;
    }
  }

  lemma NumberIsGet(b: seq<Byte>)
    requires |b| == 4
    ensures Get32(b, true) == Number(b)
  {
  }

  lemma AttrSays(e: Entry, r: Entry, attrs: seq<Attr>, a: Attr, big: bool)
    requires SaysFields(e, r, attrs) && ReadAttr(r, a, big).Some?
    requires a.typ == CTA_TUPLE_ORIG ==> SameButAddresses(r.(tuple := a.raw), ReadAttr(r, a, big).value)
    ensures SaysFields(e, ReadAttr(r, a, big).value, attrs + [a])
  {
    OneMore(Tuple, attrs, a);
    OneMore(Mark, attrs, a);
    OneMore(Zone, attrs, a);
    OneMore(Id, attrs, a);
    if |a.payload| == 4 { NumberIsGet(a.payload); }
    hide Last, NoneGives, ReadTuple, Get32, Number;
  }

  lemma AddressesOfAttr(e: Entry, r: Entry, ips: seq<Attr>, a: Attr, big: bool)
    requires SaysAddresses(e, r, ips) && ReadAttr(r, a, big).Some?
    ensures SaysAddresses(e, ReadAttr(r, a, big).value,
                          ips + if a.typ == CTA_TUPLE_ORIG then AddressesIn(ParseAttrs(a.payload, big).0, big) else [])
    ensures a.typ == CTA_TUPLE_ORIG ==> SameButAddresses(r.(tuple := a.raw), ReadAttr(r, a, big).value)
  {
    if a.typ == CTA_TUPLE_ORIG {
      var u := r.(tuple := a.raw);
      assert SaysAddresses(e, u, ips);
      TupleSays(e, u, ips, ParseAttrs(a.payload, big).0, big);
    } else {
      assert ips + [] == ips;
    }
    hide ReadTuple, AddressesIn, Last, NoneGives, Get32;
  }

  lemma {:induction false} AttrsSay(e: Entry, attrs: seq<Attr>, big: bool)
    ensures var s := ReadAttrs(e, attrs, big);
            s.Some? ==> SaysFields(e, s.value, attrs) && SaysAddresses(e, s.value, Addresses(attrs, big))
  {
    hide SaysFields, SaysAddresses, ReadAttr, AddressesIn, ParseAttrs;
    if attrs == [] {
      NothingSaid(e);
    } else {
      var init, a := attrs[..|attrs| - 1], attrs[|attrs| - 1];
      AttrsSay(e, init, big);
      var r := ReadAttrs(e, init, big);
      if r.Some? && ReadAttr(r.value, a, big).Some? {
        AddressesOfAttr(e, r.value, Addresses(init, big), a, big);
        AttrSays(e, r.value, init, a, big);
        assert init + [a] == attrs;
      }
    }
  }

  lemma NothingSaid(e: Entry)
    ensures SaysFields(e, e, []) && SaysAddresses(e, e, [])
  {
  }

  /** An entry says what the last attribute for each of its fields gave, whatever else the message holds: the mark in
      network order, the tuple, zone and id byte for byte, and the addresses of the tuple's address lists. */
  lemma EntrySaysItsAttributes(family: Byte, payload: seq<Byte>, big: bool)
    requires ParseEntry(family, payload, big).Some?
    ensures var e, attrs := ParseEntry(family, payload, big).value, ParseAttrs(payload[4..], big).0;
            && SaysFields(Blank(family), e, attrs) && SaysAddresses(Blank(family), e, Addresses(attrs, big))
            && e.tuple != []
  {
    AttrsSay(Blank(family), ParseAttrs(payload[4..], big).0, big);
    hide SaysFields, SaysAddresses;
  }

  ghost predicate AllTuplesParse(attrs: seq<Attr>, big: bool) {
    forall a | a in attrs && a.typ == 1 ::
      ParseAttrs(a.payload, big).1 &&
      forall t | t in ParseAttrs(a.payload, big).0 && t.typ == 1 :: ParseAttrs(t.payload, big).1
  }

  lemma {:induction false} TupleIsRead(e: Entry, inner: seq<Attr>, big: bool)
    ensures ReadTuple(e, inner, big).Some? <==> forall t | t in inner && t.typ == 1 :: ParseAttrs(t.payload, big).1
    ensures ReadTuple(e, inner, big).Some? ==> ReadTuple(e, inner, big).value.tuple == e.tuple
  {
    if inner != [] {
      var init, last := inner[..|inner| - 1], inner[|inner| - 1];
      TupleIsRead(e, init, big);
      assert inner == init + [last];
      if ReadTuple(e, inner, big).Some? && last.typ == 1 {
        AddressesKeep(ReadTuple(e, init, big).value, ParseAttrs(last.payload, big).0);
      }
      hide ReadAddresses;
    }
  }

  lemma {:induction false} AddressesKeep(e: Entry, ips: seq<Attr>)
    ensures ReadAddresses(e, ips).tuple == e.tuple
  {
    if ips != [] { AddressesKeep(e, ips[..|ips| - 1]); }
  }

  lemma {:induction false} AttrsAreRead(e: Entry, attrs: seq<Attr>, big: bool)
    requires forall a | a in attrs :: a.raw != []
    ensures var s := ReadAttrs(e, attrs, big);
            && (s.Some? <==> AllTuplesParse(attrs, big))
            && (s.Some? ==> (s.value.tuple != [] <==> e.tuple != [] || exists a | a in attrs :: a.typ == 1))
  {
    if attrs != [] {
      var init, last := attrs[..|attrs| - 1], attrs[|attrs| - 1];
      assert attrs == init + [last];
      AttrsAreRead(e, init, big);
      var r := ReadAttrs(e, init, big);
      if r.Some? && last.typ == 1 {
        TupleIsRead(r.value.(tuple := last.raw), ParseAttrs(last.payload, big).0, big);
      }
      hide ReadTuple, Get32;
    }
  }

  /** An entry is read exactly when the message is well-formed and has a tuple, and all its tuples and their address
      lists are well-formed. */
  lemma EntryIsReadIff(family: Byte, payload: seq<Byte>, big: bool)
    ensures ParseEntry(family, payload, big).Some? <==>
            |payload| >= 4 &&
            var (attrs, ok) := ParseAttrs(payload[4..], big);
            ok && AllTuplesParse(attrs, big) && exists a | a in attrs :: a.typ == 1
  {
    if |payload| >= 4 {
      ParsedAttrsAreSized(payload[4..], big);
      AttrsAreRead(Blank(family), ParseAttrs(payload[4..], big).0, big);
    }
    hide ReadAttrs, AllTuplesParse;
  }

  /** An entry read from a dump is deleted by its own tuple, unless that tuple is empty. */
  lemma DumpedEntriesAreDeletable(family: Byte, payload: seq<Byte>, big: bool)
    requires ParseEntry(family, payload, big).Some?
    ensures var e := ParseEntry(family, payload, big).value;
            NamesTuple(e, big) <==> |e.tuple| > NLA_HDR_LEN
  {
    RawAttrsAreSized(family, payload, big);
  }

  /** Its raw attributes carry their own length and type. */
  lemma RawAttrsAreSized(family: Byte, payload: seq<Byte>, big: bool)
    requires ParseEntry(family, payload, big).Some?
    ensures var e := ParseEntry(family, payload, big).value;
            && SelfSized(e.tuple, big) && TypeOf(e.tuple, big) == CTA_TUPLE_ORIG
            && (e.zone != [] ==> SelfSized(e.zone, big)) && (e.id != [] ==> SelfSized(e.id, big))
  {
    var e, attrs := ParseEntry(family, payload, big).value, ParseAttrs(payload[4..], big).0;
    ParsedAttrsAreSized(payload[4..], big);
    EntrySaysItsAttributes(family, payload, big);
    LastOrNone(Tuple, attrs);
    LastOrNone(Zone, attrs);
    LastOrNone(Id, attrs);
    hide ParseEntry, ParseAttrs, SaysAddresses, LenOf, TypeOf, Last, NoneGives;
  }

  lemma {:induction false} LastOrNone(k: Field, attrs: seq<Attr>)
    ensures NoneGives(k, attrs) || exists i :: Last(k, attrs, i) && attrs[i] in attrs && Gives(k, attrs[i])
  {
    if attrs != [] {
      var init, a := attrs[..|attrs| - 1], attrs[|attrs| - 1];
      LastOrNone(k, init);
      assert attrs == init + [a];
      OneMore(k, init, a);
      if Gives(k, a) { assert Last(k, attrs, |init|); }
      else if i :| Last(k, init, i) { assert Last(k, attrs, i); }
    }
  }

  /** The number in two or four bytes of the host's order. */
  function HostNumber(b: seq<Byte>, big: bool): nat
    requires |b| == 2 || |b| == 4
  {
    if |b| == 2 then Number(if big then [0, 0, b[0], b[1]] else [0, 0, b[1], b[0]])
    else Number(if big then b else [b[3], b[2], b[1], b[0]])
  }

  /** The bytes of a request as numbers, in either byte order: its length, type, flags and sequence number, and the
      family where the kernel looks for it; and after the header the attributes. */
  lemma RequestBytes(msgType: nat, flags: nat, sequence: nat, family: Byte, attrs: seq<seq<Byte>>, big: bool)
    requires 20 + |Flat(attrs)| < 0x1_0000_0000 && msgType < 0x100 && flags < 0x1_0000 && sequence < 0x1_0000_0000
    ensures var r := Request(msgType, flags, sequence, family, attrs, big);
            && |r| == 20 + |Flat(attrs)| && r[20..] == Flat(attrs)
            && HostNumber(r[..4], big) == |r| && HostNumber(r[4..6], big) == 0x100 + msgType
            && HostNumber(r[6..8], big) == flags && HostNumber(r[8..12], big) == sequence
            && r[12..20] == [0, 0, 0, 0, family, 0, 0, 0]
  {
    var n := 20 + |Flat(attrs)|;
    PutIsNumber(n, big);
    PutIsNumber(sequence, big);
    Put16IsNumber(0x100 + msgType, big);
    Put16IsNumber(flags, big);
    hide Put16, Put32, HostNumber, Flat;
    Cut(Put32(n, big), Put16(0x100 + msgType, big), Put16(flags, big), Put32(sequence, big), family, Flat(attrs));
    assert Zeros(4) == [0, 0, 0, 0] && Zeros(3) == [0, 0, 0];
  }

  lemma Cut(a: seq<Byte>, b: seq<Byte>, c: seq<Byte>, d: seq<Byte>, family: Byte, rest: seq<Byte>)
    requires |a| == |d| == 4 && |b| == |c| == 2
    ensures var r := a + b + c + d + [0, 0, 0, 0] + [family] + [0, 0, 0] + rest;
            && |r| == 20 + |rest| && r[20..] == rest && r[..4] == a && r[4..6] == b && r[6..8] == c && r[8..12] == d
            && r[12..20] == [0, 0, 0, 0, family, 0, 0, 0]
  {
  }

  lemma PutIsNumber(x: nat, big: bool)
    requires x < 0x1_0000_0000
    ensures HostNumber(Put32(x, big), big) == x
  {
  }

  lemma Put16IsNumber(x: nat, big: bool)
    requires x < 0x1_0000
    ensures HostNumber(Put16(x, big), big) == x
  {
  }

  /** The delete of an entry read from a dump asks for exactly it: message type 2 with request and ack set, and of its
      attributes the tuple, and the id and the zone where the dump gave them, byte for byte. It is refused exactly when
      the tuple is empty. */
  lemma DeleteNamesTheEntry(sequence: nat, family: Byte, payload: seq<Byte>, big: bool)
    requires ParseEntry(family, payload, big).Some? && sequence < 0x1_0000_0000
    requires 20 + |Flat(DeleteAttrs(ParseEntry(family, payload, big).value))| < 0x1_0000_0000
    ensures var e := ParseEntry(family, payload, big).value;
            var r := DeleteRequest(sequence, e, big);
            var attrs := [e.tuple] + (if e.id != [] then [e.id] else []) + (if e.zone != [] then [e.zone] else []);
            && (r.Some? <==> |e.tuple| > 4)
            && (forall i | 0 <= i < |attrs| :: SelfSized(attrs[i], big))
            && 20 + |Flat(attrs)| < 0x1_0000_0000
            && (r.Some? ==> r.value == Request(2, 5, sequence, family, attrs, big)
                            && ParseAttrs(r.value[20..], big) == (AttrsOf(attrs, big), true))
  {
    hide ParseEntry, Flat, Request, NamesTuple, SelfSized, TypeOf, ParseAttrs, AttrsOf;
    var e := ParseEntry(family, payload, big).value;
    RawAttrsAreSized(family, payload, big);
    FamilyIsKept(family, payload, big);
    TupleIsNamed(e, big);
    var attrs := [e.tuple] + (if e.id != [] then [e.id] else []) + (if e.zone != [] then [e.zone] else []);
    assert attrs == DeleteAttrs(e);
    RequestRoundTrip(2, 5, sequence, family, attrs, big);
  }

  lemma TupleIsNamed(e: Entry, big: bool)
    requires SelfSized(e.tuple, big) && TypeOf(e.tuple, big) == CTA_TUPLE_ORIG
    ensures NamesTuple(e, big) <==> |e.tuple| > 4
  {
  }

  lemma FamilyIsKept(family: Byte, payload: seq<Byte>, big: bool)
    requires ParseEntry(family, payload, big).Some?
    ensures ParseEntry(family, payload, big).value.family == family
  {
    EntrySaysItsAttributes(family, payload, big);
    hide ParseEntry, ParseAttrs, Last, NoneGives, SaysAddresses;
  }

  // ---- Receive buffers ----------------------------------------------------------------------------

  /** What one receive buffer says: the entries visited, and whether the request is complete. */
  datatype Reply = Reply(entries: seq<Entry>, done: bool, errno: Option<nat>, malformed: bool)

  function MsgType(buf: seq<Byte>, big: bool): nat
    requires |buf| >= NLMSG_HDR_LEN
  {
    Get16(buf[4..6], big)
  }

  function MsgSeq(buf: seq<Byte>, big: bool): nat
    requires |buf| >= NLMSG_HDR_LEN
  {
    Get32(buf[8..12], big)
  }

  function VisitOf(buf: seq<Byte>, l: nat, family: Byte, sequence: nat, big: bool): seq<Entry>
    requires NLMSG_HDR_LEN <= l <= |buf|
  {
    if MsgSeq(buf, big) == sequence && MsgType(buf, big) == NFNL_SUBSYS_CT * 256 + CT_MSG_NEW then
      var e := ParseEntry(family, buf[NLMSG_HDR_LEN..l], big);
      if e.Some? then [e.value] else []
    else []
  }

  /** The entries in front of what the rest of the buffer says. */
  function Before(entries: seq<Entry>, r: Reply): Reply {
    r.(entries := entries + r.entries)
  }

  function ReadMessages(buf: seq<Byte>, family: Byte, sequence: nat, big: bool): Reply
    decreases |buf|
  {
    if |buf| < NLMSG_HDR_LEN then Reply([], false, None, false)
    else
      var l := Get32(buf[..4], big);
      if l < NLMSG_HDR_LEN || l > |buf| then Reply([], false, None, true)
      else if MsgSeq(buf, big) == sequence && MsgType(buf, big) == NLMSG_DONE then Reply([], true, None, false)
      else if MsgSeq(buf, big) == sequence && MsgType(buf, big) == NLMSG_ERROR then
        if l < NLMSG_HDR_LEN + 4 then Reply([], true, None, true)
        else Reply([], true, Some(Get32(buf[16..20], big)), false)
      else
        Before(VisitOf(buf, l, family, sequence, big), ReadMessages(Rest(buf, l), family, sequence, big))
  }

  lemma BeforeAgain(a: seq<Entry>, b: seq<Entry>, r: Reply)
    ensures Before(a, Before(b, r)) == Before(a + b, r)
  {
  }

  /** readMessages. It ends on every buffer: each message takes at least its header off. */
  method ReadMessagesLoop(buffer: seq<Byte>, family: Byte, sequence: nat, big: bool) returns (r: Reply)
    ensures r == ReadMessages(buffer, family, sequence, big)
  {
    hide MsgSeq, MsgType, VisitOf, Get32;
    var buf, entries := buffer, [];
    while |buf| >= NLMSG_HDR_LEN
      invariant Before(entries, ReadMessages(buf, family, sequence, big)) == ReadMessages(buffer, family, sequence, big)
      decreases |buf|
    {
      var l := Get32(buf[..4], big);
      if l < NLMSG_HDR_LEN || l > |buf| {
        return Reply(entries, false, None, true);
      }
      if MsgSeq(buf, big) == sequence {
        var typ := MsgType(buf, big);
        if typ == NLMSG_DONE {
          return Reply(entries, true, None, false);
        } else if typ == NLMSG_ERROR {
          if l < NLMSG_HDR_LEN + 4 {
            return Reply(entries, true, None, true);
          }
          return Reply(entries, true, Some(Get32(buf[16..20], big)), false);
        }
      }
      var visited := VisitOf(buf, l, family, sequence, big);
      BeforeAgain(entries, visited, ReadMessages(Rest(buf, l), family, sequence, big));
      entries := entries + visited;
      buf := Rest(buf, l);
    }
    return Reply(entries, false, None, false);
  }

  /** A message the encoder made frames itself: the reader takes exactly it off the buffer. An entry of
      another request's late answer is skipped, one of this request is read from its attributes. */
  lemma ReaderTakesOneMessage(sequence: nat, family: Byte, attrs: seq<seq<Byte>>, rest: seq<Byte>, want: nat, big: bool)
    requires 20 + |Flat(attrs)| < 0x1_0000_0000 && sequence < 0x1_0000_0000
    ensures var msg := Request(CT_MSG_NEW, 0, sequence, family, attrs, big);
            var e := ParseEntry(family, msg[NLMSG_HDR_LEN..], big);
            ReadMessages(msg + rest, family, want, big) ==
            Before(if sequence == want && e.Some? then [e.value] else [], ReadMessages(rest, family, want, big))
  {
    var msg := Request(CT_MSG_NEW, 0, sequence, family, attrs, big);
    FlatIsAligned(attrs);
    RequestFields(sequence, family, attrs, big);
    SumIsAligned(20, |Flat(attrs)|);
    hide Header, Request, Flat, ParseEntry, ReadMessages, Before, MsgSeq, MsgType, Get32;
    FramedMessage(msg, rest, family, want, big);
  }

  lemma RequestFields(sequence: nat, family: Byte, attrs: seq<seq<Byte>>, big: bool)
    requires 20 + |Flat(attrs)| < 0x1_0000_0000 && sequence < 0x1_0000_0000
    ensures var msg := Request(CT_MSG_NEW, 0, sequence, family, attrs, big);
            && |msg| == 20 + |Flat(attrs)| && Get32(msg[..4], big) == |msg| && MsgSeq(msg, big) == sequence
            && MsgType(msg, big) == NFNL_SUBSYS_CT * 256 + CT_MSG_NEW
  {
    var msg := Request(CT_MSG_NEW, 0, sequence, family, attrs, big);
    var h := Header(20 + |Flat(attrs)|, CT_MSG_NEW, 0, sequence, family, big);
    HeaderFields(20 + |Flat(attrs)|, sequence, family, big);
    hide Header, Flat, Get32, Get16;
    assert msg[..4] == h[..4] && msg[4..6] == h[4..6] && msg[8..12] == h[8..12];
  }

  /** An entry message whose length field is its own, and a multiple of four, is taken as one. */
  lemma FramedMessage(msg: seq<Byte>, rest: seq<Byte>, family: Byte, want: nat, big: bool)
    requires |msg| >= 20 && |msg| % 4 == 0 && Get32(msg[..4], big) == |msg|
    requires MsgType(msg, big) == NFNL_SUBSYS_CT * 256 + CT_MSG_NEW
    ensures var e := ParseEntry(family, msg[NLMSG_HDR_LEN..], big);
            ReadMessages(msg + rest, family, want, big) ==
            Before(if MsgSeq(msg, big) == want && e.Some? then [e.value] else [], ReadMessages(rest, family, want, big))
  {
    var buf := msg + rest;
    hide Get32, Get16, ParseEntry;
    assert buf[..4] == msg[..4] && buf[4..6] == msg[4..6] && buf[8..12] == msg[8..12];
    assert buf[NLMSG_HDR_LEN..|msg|] == msg[NLMSG_HDR_LEN..];
    RestOfMessage(msg, rest);
    hide Rest, Before;
  }

  lemma RestOfMessage(msg: seq<Byte>, rest: seq<Byte>)
    requires |msg| % 4 == 0
    ensures Rest(msg + rest, |msg|) == rest
  {
    assert Align(|msg|) == |msg|;
    assert (msg + rest)[|msg|..] == rest;
  }

  lemma HeaderFields(n: nat, sequence: nat, family: Byte, big: bool)
    requires n < 0x1_0000_0000 && sequence < 0x1_0000_0000
    ensures var h := Header(n, CT_MSG_NEW, 0, sequence, family, big);
            && Get32(h[..4], big) == n && Get32(h[8..12], big) == sequence
            && Get16(h[4..6], big) == NFNL_SUBSYS_CT * 256 + CT_MSG_NEW
  {
  }

  /** An attribute is its length and its type, the two highest bits of which are flags, in the host's order, and what
      it carries: so laid out it reads as such. */
  lemma AttributeReadsBack(a: seq<Byte>, flags: nat, typ: nat, payload: seq<Byte>, big: bool)
    requires 4 + |payload| < 0x1_0000 && flags < 4 && typ < 0x4000
    requires |a| == 4 + |payload| && a[4..] == payload
    requires HostNumber(a[..2], big) == 4 + |payload| && HostNumber(a[2..4], big) == flags * 0x4000 + typ
    ensures SelfSized(a, big) && AttrOf(a, big) == Attr(typ, payload, a)
  {
    hide Get16, HostNumber;
    Get16IsNumber(a[..2], big);
    Get16IsNumber(a[2..4], big);
    FlagsDrop(flags, typ);
  }

  lemma FlagsDrop(flags: nat, typ: nat)
    requires flags < 4 && typ < 0x4000
    ensures (flags * 0x4000 + typ) % 0x4000 == typ
  {
  }

  // ---- Several messages in one buffer -------------------------------------------------------------

  /** A message as the kernel lays it out: its length field is its own length, a multiple of four. */
  predicate Framed(m: seq<Byte>, big: bool) { |m| >= 16 && |m| % 4 == 0 && HostNumber(m[..4], big) == |m| }

  /** It answers the request, with a message of this kind. */
  predicate Answers(m: seq<Byte>, want: nat, kind: nat, big: bool) {
    |m| >= 16 && HostNumber(m[8..12], big) == want && HostNumber(m[4..6], big) == kind
  }

  /** The entries of those that answer the request and can be read: conntrack's "new" messages. */
  function EntriesOf(msgs: seq<seq<Byte>>, family: Byte, want: nat, big: bool): seq<Entry> {
    if msgs == [] then []
    else
      var m := msgs[0];
      (if Answers(m, want, 0x100, big) && ParseEntry(family, m[16..], big).Some?
       then [ParseEntry(family, m[16..], big).value] else []) +
      EntriesOf(msgs[1..], family, want, big)
  }

  function Laid(msgs: seq<seq<Byte>>): seq<Byte> { if msgs == [] then [] else msgs[0] + Laid(msgs[1..]) }

  lemma FieldsAreNumbers(buf: seq<Byte>, big: bool)
    requires |buf| >= 16
    ensures Get32(buf[..4], big) == HostNumber(buf[..4], big) && MsgSeq(buf, big) == HostNumber(buf[8..12], big)
    ensures MsgType(buf, big) == HostNumber(buf[4..6], big)
    ensures |buf| >= 20 ==> Get32(buf[16..20], big) == HostNumber(buf[16..20], big)
  {
    GetIsNumber(buf[..4], big);
    GetIsNumber(buf[8..12], big);
    Get16IsNumber(buf[4..6], big);
    if |buf| >= 20 { GetIsNumber(buf[16..20], big); }
    hide Get16, Get32, HostNumber;
  }

  lemma GetIsNumber(b: seq<Byte>, big: bool)
    requires |b| == 4
    ensures Get32(b, big) == HostNumber(b, big)
  {
  }

  lemma Get16IsNumber(b: seq<Byte>, big: bool)
    requires |b| == 2
    ensures Get16(b, big) == HostNumber(b, big)
  {
  }

  lemma ReadStep(buf: seq<Byte>, family: Byte, want: nat, big: bool)
    requires |buf| >= 16 && 16 <= Get32(buf[..4], big) <= |buf|
    ensures var l := Get32(buf[..4], big);
            ReadMessages(buf, family, want, big) ==
            if MsgSeq(buf, big) == want && MsgType(buf, big) == 3 then Reply([], true, None, false)
            else if MsgSeq(buf, big) == want && MsgType(buf, big) == 2 then
              if l < 20 then Reply([], true, None, true) else Reply([], true, Some(Get32(buf[16..20], big)), false)
            else Before(VisitOf(buf, l, family, want, big), ReadMessages(Rest(buf, l), family, want, big))
  {
    hide Get32, MsgSeq, MsgType, VisitOf, Rest;
  }

  /** One message: the end of the request (3) and an error (2) end the reading, anything else goes on behind it. */
  lemma ReadOne(m: seq<Byte>, rest: seq<Byte>, family: Byte, want: nat, big: bool)
    requires Framed(m, big)
    ensures ReadMessages(m + rest, family, want, big) ==
            if Answers(m, want, 3, big) then Reply([], true, None, false)
            else if Answers(m, want, 2, big) then
              if |m| < 20 then Reply([], true, None, true)
              else Reply([], true, Some(HostNumber(m[16..20], big)), false)
            else Before(EntriesOf([m], family, want, big), ReadMessages(rest, family, want, big))
  {
    hide ReadMessages, Before, VisitOf, EntriesOf, Rest, Align, HostNumber, Get32, MsgSeq, MsgType;
    var buf := m + rest;
    InBuffer(m, rest, big);
    RestOfMessage(m, rest);
    ReadStep(buf, family, want, big);
    VisitIsEntry(m, rest, family, want, big);
  }

  /** A message's fields, read at the front of a buffer. */
  lemma InBuffer(m: seq<Byte>, rest: seq<Byte>, big: bool)
    requires |m| >= 16
    ensures var buf := m + rest;
            && Get32(buf[..4], big) == HostNumber(m[..4], big) && MsgSeq(buf, big) == HostNumber(m[8..12], big)
            && MsgType(buf, big) == HostNumber(m[4..6], big)
            && (|m| >= 20 ==> Get32(buf[16..20], big) == HostNumber(m[16..20], big))
  {
    var buf := m + rest;
    assert buf[..4] == m[..4] && buf[4..6] == m[4..6] && buf[8..12] == m[8..12];
    assert |m| >= 20 ==> buf[16..20] == m[16..20];
    hide Get32, HostNumber, MsgSeq, MsgType;
    FieldsAreNumbers(buf, big);
  }

  lemma VisitIsEntry(m: seq<Byte>, rest: seq<Byte>, family: Byte, want: nat, big: bool)
    requires |m| >= 16
    ensures VisitOf(m + rest, |m|, family, want, big) == EntriesOf([m], family, want, big)
  {
    hide Get32, HostNumber, MsgSeq, MsgType, ParseEntry;
    InBuffer(m, rest, big);
    assert (m + rest)[16..|m|] == m[16..];
    assert [m][1..] == [];
  }

  /** Less than a header is the end of the buffer, the request still open; a length that does not fit is malformed. */
  lemma ReadNone(rest: seq<Byte>, family: Byte, want: nat, big: bool)
    ensures |rest| < 16 ==> ReadMessages(rest, family, want, big) == Reply([], false, None, false)
    ensures |rest| >= 16 && !(16 <= HostNumber(rest[..4], big) <= |rest|) ==>
              ReadMessages(rest, family, want, big) == Reply([], false, None, true)
  {
    if |rest| >= 16 { GetIsNumber(rest[..4], big); }
    hide Get32, HostNumber, MsgSeq, MsgType, VisitOf, Rest;
  }

  lemma ConsEntries(m: seq<Byte>, msgs: seq<seq<Byte>>, family: Byte, want: nat, big: bool)
    ensures EntriesOf([m] + msgs, family, want, big) ==
            EntriesOf([m], family, want, big) + EntriesOf(msgs, family, want, big)
  {
    assert ([m] + msgs)[1..] == msgs && [m][1..] == [];
    hide ParseEntry, Answers;
  }

  /** Any messages laid one behind the other, none of which ends the request, give their entries in order, before
      whatever the rest of the buffer says. */
  lemma {:induction false} ReaderFollowsMessages(msgs: seq<seq<Byte>>, rest: seq<Byte>, family: Byte,
                                                  want: nat, big: bool)
    requires forall m | m in msgs :: Framed(m, big) && !Answers(m, want, 2, big) && !Answers(m, want, 3, big)
    ensures ReadMessages(Laid(msgs) + rest, family, want, big) ==
            Before(EntriesOf(msgs, family, want, big), ReadMessages(rest, family, want, big))
  {
    hide ReadMessages, Framed, Answers, EntriesOf, Before, Laid;
    if msgs == [] {
      NoMessages(rest, family, want, big);
    } else {
      var m, more := msgs[0], msgs[1..];
      assert m in msgs && forall x | x in more :: x in msgs;
      ReadOne(m, Laid(more) + rest, family, want, big);
      ReaderFollowsMessages(more, rest, family, want, big);
      assert msgs == [m] + more;
      LaidCons(m, more, rest);
      ConsEntries(m, more, family, want, big);
      BeforeAgain(EntriesOf([m], family, want, big), EntriesOf(more, family, want, big),
                  ReadMessages(rest, family, want, big));
    }
  }

  lemma NoMessages(rest: seq<Byte>, family: Byte, want: nat, big: bool)
    ensures Laid([]) + rest == rest
    ensures Before(EntriesOf([], family, want, big), ReadMessages(rest, family, want, big)) ==
            ReadMessages(rest, family, want, big)
  {
    hide ReadMessages;
  }

  lemma LaidCons(m: seq<Byte>, more: seq<seq<Byte>>, rest: seq<Byte>)
    ensures Laid([m] + more) + rest == m + (Laid(more) + rest)
  {
    assert ([m] + more)[1..] == more;
  }
}
