/** The operator's core override of internal/generator/override.go, on decoded JSON: an RFC 7396 merge
    patch with arrays to prepend. Objects are maps; Go's two slice types for arrays are one here. */
module Override {
  import opened Wrappers

  datatype Json = Null | Scalar(text: string) | Arr(items: seq<Json>) | Obj(fields: map<string, Json>)

  type Fields = map<string, Json>

  function FieldsOf(j: Json): Fields {
    if j.Obj? then j.fields else map[]
  }

  function Field(m: Fields, k: string): Json {
    if k in m then m[k] else Null
  }

  // ---- The merge patch ----------------------------------------------------------------------------

  /** MergePatch of section 2 of RFC 7396, one member at a time: a null deletes, anything else merges. */
  function Merge(target: Json, patch: Json): Json
    decreases patch, 1
  {
    if !patch.Obj? then patch else Obj(MergeFields(FieldsOf(target), patch))
  }

  function MergeFields(m: Fields, patch: Json): Fields
    requires patch.Obj?
    decreases patch, 0
  {
    map k | k in m.Keys + patch.fields.Keys && (k in patch.fields ==> patch.fields[k] != Null) ::
      if k in patch.fields then Merge(Field(m, k), patch.fields[k]) else m[k]
  }

  /** The fields with the patch merged in, except for the members still to do. */
  function MergeSome(m: Fields, patch: Json, todo: set<string>): Fields
    requires patch.Obj?
  {
    map k | k in m.Keys + patch.fields.Keys &&
            if k in todo then k in m else k in patch.fields ==> patch.fields[k] != Null ::
      if k in patch.fields && k !in todo then Merge(Field(m, k), patch.fields[k]) else m[k]
  }

  lemma MergeOneMore(m: Fields, patch: Json, todo: set<string>, k: string)
    requires patch.Obj? && k in patch.fields && k in todo
    ensures var some := MergeSome(m, patch, todo);
            && Field(some, k) == Field(m, k)
            && MergeSome(m, patch, todo - {k}) ==
               if patch.fields[k] == Null then some - {k} else some[k := Merge(Field(m, k), patch.fields[k])]
  {
  }

  lemma MergeNoneAndAll(m: Fields, patch: Json)
    requires patch.Obj?
    ensures MergeSome(m, patch, patch.fields.Keys) == m && MergeSome(m, patch, {}) == MergeFields(m, patch)
  {
  }

  /** mergePatch: a copy of the target, then the patch's members in whatever order the map yields them. */
  method MergePatch(target: Json, patch: Json) returns (r: Json)
    ensures r == Merge(target, patch)
    decreases patch
  {
    hide MergeSome, MergeFields;
    if !patch.Obj? {
      return patch;
    }
    var out := FieldsOf(target);
    var todo := patch.fields.Keys;
    MergeNoneAndAll(out, patch);
    while todo != {}
      invariant todo <= patch.fields.Keys && out == MergeSome(FieldsOf(target), patch, todo)
      decreases |todo|
    {
      var k :| k in todo;
      MergeOneMore(FieldsOf(target), patch, todo, k);
      todo := todo - {k};
      if patch.fields[k] == Null {
        out := out - {k};
      } else {
        var v := MergePatch(Field(out, k), patch.fields[k]);
        out := out[k := v];
      }
    }
    return Obj(out);
  }

  lemma {:induction false} MergeIdempotent(target: Json, patch: Json)
    ensures Merge(Merge(target, patch), patch) == Merge(target, patch)
    decreases patch
  {
    if patch.Obj? {
      var once := MergeFields(FieldsOf(target), patch);
      var twice := MergeFields(once, patch);
      forall k | k in once
        ensures k in twice && twice[k] == once[k]
      {
        if k in patch.fields {
          MergeIdempotent(Field(FieldsOf(target), k), patch.fields[k]);
        }
      }
      assert once == twice;
    }
  }

  // ---- Parsing ------------------------------------------------------------------------------------

  datatype CoreOverride = CoreOverride(patch: Fields, prepend: map<string, seq<Json>>)

  const PREPEND_KEY := "prepend"
  const OUTBOUNDS := "outbounds"
  const DNS_SERVERS := "dns.servers"
  const DNS_RULES := "dns.rules"
  const ROUTE_RULES := "route.rules"

  const PREPEND_PATHS := [OUTBOUNDS, DNS_SERVERS, DNS_RULES, ROUTE_RULES]

  /** The dotted path split at its dots. */
  function Segments(path: string): (s: seq<string>)
    requires path in PREPEND_PATHS
    ensures 1 <= |s| <= 2
  {
    if path == OUTBOUNDS then ["outbounds"]
    else if path == DNS_SERVERS then ["dns", "servers"]
    else if path == DNS_RULES then ["dns", "rules"]
    else ["route", "rules"]
  }

  /** How many segments in the patch replaces or deletes something on the path; 0 when it leaves it alone. */
  function ShadowDepth(patch: Fields, path: seq<string>): nat
    requires path != []
    decreases |path|
  {
    if path[0] !in patch then 0
    else if |path| == 1 || !patch[path[0]].Obj? then 1
    else
      var d := ShadowDepth(patch[path[0]].fields, path[1..]);
      if d == 0 then 0 else d + 1
  }

  /** patchShadows. */
  method PatchShadows(patch: Fields, path: seq<string>) returns (depth: nat)
    requires path != []
    ensures depth == ShadowDepth(patch, path)
  {
    var node := patch;
    for i := 0 to |path|
      invariant i < |path| ==> ShadowDepth(patch, path) ==
                               var d := ShadowDepth(node, path[i..]); if d == 0 then 0 else d + i
      invariant i == |path| ==> ShadowDepth(patch, path) == 0
    {
      if path[i] !in node {
        return 0;
      }
      if i == |path| - 1 || !node[path[i]].Obj? {
        return i + 1;
      }
      assert path[i..][1..] == path[i + 1..];
      node := node[path[i]].fields;
    }
    return 0;
  }

  predicate ValidPrepend(patch: Fields, path: string, v: Json) {
    && path in PREPEND_PATHS && v.Arr?
    && (forall i | 0 <= i < |v.items| :: v.items[i].Obj?)
    && ShadowDepth(patch, Segments(path)) == 0
  }

  function Items(pre: Fields): map<string, seq<Json>>
    requires forall p | p in pre :: pre[p].Arr?
  {
    map p | p in pre :: pre[p].items
  }

  /** ParseCoreOverride on the decoded text: the override, or nothing when it is refused. */
  function Parse(root: Json): Option<CoreOverride> {
    if !root.Obj? then None
    else if PREPEND_KEY !in root.fields then Some(CoreOverride(root.fields, map[]))
    else
      var patch, raw := root.fields - {PREPEND_KEY}, root.fields[PREPEND_KEY];
      if !raw.Obj? || exists p | p in raw.fields :: !ValidPrepend(patch, p, raw.fields[p]) then None
      else Some(CoreOverride(patch, Items(raw.fields)))
  }

  /** What every accepted override satisfies. */
  ghost predicate Accepted(o: CoreOverride) {
    forall p | p in o.prepend :: p in PREPEND_PATHS && ShadowDepth(o.patch, Segments(p)) == 0
  }

  lemma ParseAccepts(root: Json)
    ensures Parse(root).Some? ==> Accepted(Parse(root).value)
  {
  }

  /** Exactly these overrides are accepted: an object, whose prepend member, if any, is an object of arrays of
      objects at the four known paths, none of which the rest of it decides; and nothing of it is lost. */
  lemma ParseIsExact(root: Json)
    ensures Parse(root).Some? <==>
            root.Obj? &&
            ("prepend" in root.fields ==>
               && root.fields["prepend"].Obj?
               && forall p | p in root.fields["prepend"].fields ::
                    MayPrepend(root.fields - {"prepend"}, p, root.fields["prepend"].fields[p]))
    ensures Parse(root).Some? ==>
              var o := Parse(root).value;
              && o.patch == root.fields - {"prepend"}
              && ("prepend" !in root.fields ==> o.prepend == map[])
              && ("prepend" in root.fields ==>
                    o.prepend.Keys == root.fields["prepend"].fields.Keys &&
                    forall p | p in o.prepend :: Arr(o.prepend[p]) == root.fields["prepend"].fields[p])
  {
    if root.Obj? && "prepend" in root.fields && root.fields["prepend"].Obj? {
      var patch, raw := root.fields - {"prepend"}, root.fields["prepend"].fields;
      forall p | p in raw ensures ValidPrepend(patch, p, raw[p]) <==> MayPrepend(patch, p, raw[p]) {
        ValidMayPrepend(patch, p, raw[p]);
      }
    }
    hide ValidPrepend, MayPrepend;
  }

  /** An array of objects, at one of the four paths, where the patch decides no segment. */
  predicate MayPrepend(patch: Fields, path: string, v: Json) {
    && (path == "outbounds" || path == "dns.servers" || path == "dns.rules" || path == "route.rules")
    && v.Arr? && (forall i | 0 <= i < |v.items| :: v.items[i].Obj?)
    && forall k | 1 <= k <= |Segments(path)| :: !Decides(patch, Segments(path), k)
  }

  lemma ValidMayPrepend(patch: Fields, path: string, v: Json)
    ensures ValidPrepend(patch, path, v) <==> MayPrepend(patch, path, v)
  {
    if path in PREPEND_PATHS {
      var s := Segments(path);
      ShadowDepthIs(patch, s);
      hide Decides, ShadowDepth, Segments;
      assert ShadowDepth(patch, s) > 0 ==> Decides(patch, s, ShadowDepth(patch, s));
    }
  }

  /** The value at a path, if there is one. */
  function At(m: Fields, path: seq<string>): Option<Json>
    requires path != []
    decreases |path|
  {
    if path[0] !in m then None
    else if |path| == 1 then Some(m[path[0]])
    else if !m[path[0]].Obj? then None
    else At(m[path[0]].fields, path[1..])
  }

  /** The patch says what becomes of the k-th segment of the path: of its end, or of what stands on the way. */
  predicate Decides(patch: Fields, path: seq<string>, k: nat)
    requires 1 <= k <= |path|
  {
    At(patch, path[..k]).Some? && (k == |path| || !At(patch, path[..k]).value.Obj?)
  }

  /** The walk stops at the first segment the patch decides, and there is only one. */
  lemma {:induction false} ShadowDepthIs(patch: Fields, path: seq<string>)
    requires path != []
    ensures ShadowDepth(patch, path) <= |path|
    ensures forall k | 1 <= k <= |path| :: Decides(patch, path, k) <==> ShadowDepth(patch, path) == k
    decreases |path|
  {
    if |path| > 1 && path[0] in patch && patch[path[0]].Obj? {
      var inner := patch[path[0]].fields;
      ShadowDepthIs(inner, path[1..]);
      forall k | 2 <= k <= |path| ensures Decides(patch, path, k) <==> Decides(inner, path[1..], k - 1) {
        assert path[..k][1..] == path[1..][..k - 1];
      }
    }
    if path[0] !in patch {
      assert forall k | 1 <= k <= |path| :: At(patch, path[..k]).None?;
    } else if |path| > 1 && !patch[path[0]].Obj? {
      assert forall k | 2 <= k <= |path| :: At(patch, path[..k]).None?;
    }
  }

  // ---- Applying -----------------------------------------------------------------------------------

  function Clamp(at: int, n: nat): nat {
    if at < 0 then 0 else if at > n then n else at
  }

  /** The array with the items in front of everything from index at on; no array: the items alone. */
  function Inserted(cur: Json, items: seq<Json>, at: int): Json {
    if cur.Arr? then
      var i := Clamp(at, |cur.items|);
      Arr(cur.items[..i] + items + cur.items[i..])
    else Arr(items)
  }

  function PrependAt(cfg: Fields, path: seq<string>, items: seq<Json>, at: int): Fields
    requires path != []
    decreases |path|
  {
    if |path| == 1 then cfg[path[0] := Inserted(Field(cfg, path[0]), items, at)]
    else cfg[path[0] := Obj(PrependAt(FieldsOf(Field(cfg, path[0])), path[1..], items, at))]
  }

  function GuardIndex(path: string, routeGuards: int): int {
    if path == ROUTE_RULES then routeGuards else 0
  }

  /** The first n prepend paths, in their fixed order. */
  function Prepended(cfg: Fields, o: CoreOverride, routeGuards: int, n: nat): Fields
    requires n <= |PREPEND_PATHS|
  {
    if n == 0 then cfg
    else
      var before, path := Prepended(cfg, o, routeGuards, n - 1), PREPEND_PATHS[n - 1];
      if path in o.prepend then PrependAt(before, Segments(path), o.prepend[path], GuardIndex(path, routeGuards))
      else before
  }

  function Applied(cfg: Fields, o: CoreOverride, routeGuards: int): Fields {
    MergeFields(Prepended(cfg, o, routeGuards, |PREPEND_PATHS|), Obj(o.patch))
  }

  /** Apply, on a config that it changes in place. */
  class Config {
    var fields: Fields

    constructor (fields: Fields)
      ensures this.fields == fields
    {
      this.fields := fields;
    }

    method Apply(o: CoreOverride, routeGuards: int)
      modifies this
      ensures fields == Applied(old(fields), o, routeGuards)
    {
      for n := 0 to |PREPEND_PATHS|
        invariant fields == Prepended(old(fields), o, routeGuards, n)
      {
        var path := PREPEND_PATHS[n];
        if path in o.prepend {
          Prepend(Segments(path), o.prepend[path], GuardIndex(path, routeGuards));
        }
      }
      var merged := MergePatch(Obj(fields), Obj(o.patch));
      fields := merged.fields;
    }

    /** prependAt for the paths there are: one key, or one inside an object, made when it is missing. */
    method Prepend(path: seq<string>, items: seq<Json>, at: int)
      requires 1 <= |path| <= 2
      modifies this
      ensures fields == PrependAt(old(fields), path, items, at)
    {
      if |path| == 1 {
        fields := fields[path[0] := Inserted(Field(fields, path[0]), items, at)];
      } else {
        var parent := FieldsOf(Field(fields, path[0]));
        parent := parent[path[1] := Inserted(Field(parent, path[1]), items, at)];
        fields := fields[path[0] := Obj(parent)];
      }
    }
  }

  // ---- What applying means ------------------------------------------------------------------------

  /** The value at a path, null when there is none. */
  function Lookup(cfg: Fields, path: seq<string>): Json
    requires path != []
    decreases |path|
  {
    if |path| == 1 then Field(cfg, path[0]) else Lookup(FieldsOf(Field(cfg, path[0])), path[1..])
  }

  /** A patch that does not shadow a path leaves what is at it. */
  lemma {:induction false} UnshadowedStays(cfg: Fields, patch: Fields, path: seq<string>)
    requires path != [] && ShadowDepth(patch, path) == 0
    ensures Lookup(MergeFields(cfg, Obj(patch)), path) == Lookup(cfg, path)
    decreases |path|
  {
    if path[0] in patch {
      var inner := patch[path[0]].fields;
      UnshadowedStays(FieldsOf(Field(cfg, path[0])), inner, path[1..]);
    }
  }

  /** And under one that does, what was prepended leaves no trace: any other items end up the same. */
  lemma {:induction false} ShadowedIsLost(cfg: Fields, patch: Fields, path: seq<string>, a: seq<Json>,
                                          b: seq<Json>, at: int)
    requires path != [] && ShadowDepth(patch, path) > 0
    ensures Lookup(MergeFields(PrependAt(cfg, path, a, at), Obj(patch)), path) ==
            Lookup(MergeFields(PrependAt(cfg, path, b, at), Obj(patch)), path)
    decreases |path|
  {
    var v := patch[path[0]];
    if |path| > 1 && v.Obj? {
      ShadowedIsLost(FieldsOf(Field(cfg, path[0])), v.fields, path[1..], a, b, at);
    }
  }

  lemma {:induction false} PrependedLookup(cfg: Fields, path: seq<string>, items: seq<Json>, at: int)
    requires path != []
    ensures Lookup(PrependAt(cfg, path, items, at), path) == Inserted(Lookup(cfg, path), items, at)
    decreases |path|
  {
    if |path| > 1 {
      PrependedLookup(FieldsOf(Field(cfg, path[0])), path[1..], items, at);
    }
  }

  /** Neither path begins with the other. */
  ghost predicate Apart(p: seq<string>, q: seq<string>)
    requires p != [] && q != []
  {
    p[0] != q[0] || (|p| > 1 && |q| > 1 && Apart(p[1..], q[1..]))
  }

  lemma {:induction false} PrependLeavesOthers(cfg: Fields, p: seq<string>, q: seq<string>, items: seq<Json>, at: int)
    requires p != [] && q != [] && Apart(p, q)
    ensures Lookup(PrependAt(cfg, p, items, at), q) == Lookup(cfg, q)
    decreases |p|
  {
    if p[0] == q[0] {
      PrependLeavesOthers(FieldsOf(Field(cfg, p[0])), p[1..], q[1..], items, at);
    }
  }

  lemma PathsAreApart(i: nat, j: nat)
    requires i < |PREPEND_PATHS| && j < |PREPEND_PATHS| && i != j
    ensures Apart(Segments(PREPEND_PATHS[i]), Segments(PREPEND_PATHS[j])) && PREPEND_PATHS[i] != PREPEND_PATHS[j]
  {
  }

  /** For an accepted path, prepending and merging commute. */
  lemma {:induction false} PrependAndMergeCommute(cfg: Fields, patch: Fields, path: seq<string>, items: seq<Json>,
                                                  at: int)
    requires path != [] && ShadowDepth(patch, path) == 0
    ensures MergeFields(PrependAt(cfg, path, items, at), Obj(patch)) ==
            PrependAt(MergeFields(cfg, Obj(patch)), path, items, at)
    decreases |path|
  {
    var k, merged := path[0], MergeFields(cfg, Obj(patch));
    MergeAt(cfg, patch, k);
    var v, w := PrependAt(cfg, path, items, at)[k], PrependAt(merged, path, items, at)[k];
    assert PrependAt(cfg, path, items, at) == cfg[k := v] && PrependAt(merged, path, items, at) == merged[k := w];
    MergeSet(cfg, patch, k, v);
    if k in patch {
      var was, inner := FieldsOf(Field(cfg, k)), patch[k];
      PrependAndMergeCommute(was, inner.fields, path[1..], items, at);
      assert inner == Obj(inner.fields) && v == Obj(PrependAt(was, path[1..], items, at));
      assert Field(merged, k) == Obj(MergeFields(was, inner));
      assert Merge(v, inner) == Obj(MergeFields(PrependAt(was, path[1..], items, at), inner)) == w;
    } else {
      assert v == w;
    }
    hide MergeFields, PrependAt;
  }

  /** What merging leaves at a key that the patch does not delete, and what it makes of another value there. */
  lemma MergeAt(m: Fields, patch: Fields, k: string)
    requires k in patch ==> patch[k] != Null
    ensures Field(MergeFields(m, Obj(patch)), k) == if k in patch then Merge(Field(m, k), patch[k]) else Field(m, k)
  {
  }

  lemma MergeSet(m: Fields, patch: Fields, k: string, v: Json)
    requires k in patch ==> patch[k] != Null
    ensures MergeFields(m[k := v], Obj(patch)) ==
            MergeFields(m, Obj(patch))[k := if k in patch then Merge(v, patch[k]) else v]
  {
  }

  lemma {:induction false} PrependedThenMerged(cfg: Fields, o: CoreOverride, routeGuards: int, n: nat)
    requires Accepted(o) && n <= |PREPEND_PATHS|
    ensures MergeFields(Prepended(cfg, o, routeGuards, n), Obj(o.patch)) ==
            Prepended(MergeFields(cfg, Obj(o.patch)), o, routeGuards, n)
  {
    if n > 0 {
      var path := PREPEND_PATHS[n - 1];
      assert path in o.prepend ==> ShadowDepth(o.patch, Segments(path)) == 0;
      hide MergeFields, PrependAt, ShadowDepth, Accepted, Segments;
      PrependedThenMerged(cfg, o, routeGuards, n - 1);
      if path in o.prepend {
        PrependAndMergeCommute(Prepended(cfg, o, routeGuards, n - 1), o.patch, Segments(path), o.prepend[path],
                               GuardIndex(path, routeGuards));
      }
    }
  }

  /** For an accepted override it does not matter whether the patch or the prepends come first. */
  lemma OrderDoesNotMatter(cfg: Fields, o: CoreOverride, routeGuards: int)
    requires Accepted(o)
    ensures Applied(cfg, o, routeGuards) ==
            Prepended(MergeFields(cfg, Obj(o.patch)), o, routeGuards, |PREPEND_PATHS|)
  {
    PrependedThenMerged(cfg, o, routeGuards, |PREPEND_PATHS|);
  }

  lemma {:induction false} PrependedAt(cfg: Fields, o: CoreOverride, routeGuards: int, n: nat, j: nat)
    requires n <= |PREPEND_PATHS| && j < |PREPEND_PATHS|
    ensures var path := PREPEND_PATHS[j];
            var before := Lookup(cfg, Segments(path));
            Lookup(Prepended(cfg, o, routeGuards, n), Segments(path)) ==
            if j < n && path in o.prepend then Inserted(before, o.prepend[path], GuardIndex(path, routeGuards))
            else before
  {
    if n > 0 {
      PrependedAt(cfg, o, routeGuards, n - 1, j);
      var last, path := PREPEND_PATHS[n - 1], PREPEND_PATHS[j];
      var before := Prepended(cfg, o, routeGuards, n - 1);
      hide Lookup, PrependAt, Inserted;
      if last in o.prepend {
        if j == n - 1 {
          PrependedLookup(before, Segments(last), o.prepend[last], GuardIndex(last, routeGuards));
        } else {
          PathsAreApart(n - 1, j);
          PrependLeavesOthers(before, Segments(last), Segments(path), o.prepend[last], GuardIndex(last, routeGuards));
        }
      }
    }
  }

  lemma AppliedAt(cfg: Fields, o: CoreOverride, routeGuards: int, path: string)
    requires Accepted(o) && path in PREPEND_PATHS && ShadowDepth(o.patch, Segments(path)) == 0
    ensures var before := Lookup(cfg, Segments(path));
            Lookup(Applied(cfg, o, routeGuards), Segments(path)) ==
            if path in o.prepend then Inserted(before, o.prepend[path], GuardIndex(path, routeGuards))
            else before
  {
    var j :| 0 <= j < |PREPEND_PATHS| && PREPEND_PATHS[j] == path;
    PrependedAt(cfg, o, routeGuards, |PREPEND_PATHS|, j);
    UnshadowedStays(Prepended(cfg, o, routeGuards, |PREPEND_PATHS|), o.patch, Segments(path));
  }
  /** Every prepended item is there, once and in order, and so is everything generated: in front of it, or for
      the route rules behind as many of WayHop's guards as there are. Where no array stood the items are all
      there is. */
  lemma NothingPrependedIsLost(cfg: Fields, o: CoreOverride, routeGuards: int, path: string)
    requires Accepted(o) && path in o.prepend
    ensures var before, after := Lookup(cfg, Segments(path)), Lookup(Applied(cfg, o, routeGuards), Segments(path));
            var items := o.prepend[path];
            && after.Arr?
            && (!before.Arr? ==> after.items == items)
            && (before.Arr? ==>
                  var cur, r := before.items, after.items;
                  exists i | 0 <= i <= |cur| ::
                    && |r| == |cur| + |items| && r[..i] == cur[..i] && r[i..i + |items|] == items
                    && r[i + |items|..] == cur[i..]
                    && (path != "route.rules" ==> i == 0)
                    && (path == "route.rules" && 0 <= routeGuards <= |cur| ==> i == routeGuards)
                    && (path == "route.rules" && routeGuards < 0 ==> i == 0)
                    && (path == "route.rules" && routeGuards > |cur| ==> i == |cur|))
  {
    AppliedAt(cfg, o, routeGuards, path);
    var before, items := Lookup(cfg, Segments(path)), o.prepend[path];
    hide Applied, Lookup, Segments;
    if before.Arr? {
      var i := Clamp(GuardIndex(path, routeGuards), |before.items|);
      InsertedParts(before.items, items, i);
    }
  }

  lemma InsertedParts<T>(cur: seq<T>, items: seq<T>, i: nat)
    requires i <= |cur|
    ensures var r := cur[..i] + items + cur[i..];
            |r| == |cur| + |items| && r[..i] == cur[..i] && r[i..i + |items|] == items && r[i + |items|..] == cur[i..]
  {
  }

  /** At any path that leads neither into nor through a prepended array, applying is the merge alone. */
  lemma NothingElseIsTouched(cfg: Fields, o: CoreOverride, routeGuards: int, q: seq<string>)
    requires Accepted(o) && q != [] && forall path | path in o.prepend :: Apart(Segments(path), q)
    ensures Lookup(Applied(cfg, o, routeGuards), q) == Lookup(MergeFields(cfg, Obj(o.patch)), q)
  {
    OrderDoesNotMatter(cfg, o, routeGuards);
    PrependedElsewhere(MergeFields(cfg, Obj(o.patch)), o, routeGuards, |PREPEND_PATHS|, q);
  }

  lemma {:induction false} PrependedElsewhere(cfg: Fields, o: CoreOverride, routeGuards: int, n: nat, q: seq<string>)
    requires n <= |PREPEND_PATHS| && q != []
    requires forall path | path in o.prepend :: path in PREPEND_PATHS && Apart(Segments(path), q)
    ensures Lookup(Prepended(cfg, o, routeGuards, n), q) == Lookup(cfg, q)
  {
    if n > 0 {
      PrependedElsewhere(cfg, o, routeGuards, n - 1, q);
      var path := PREPEND_PATHS[n - 1];
      hide Lookup, PrependAt, Segments;
      if path in o.prepend {
        PrependLeavesOthers(Prepended(cfg, o, routeGuards, n - 1), Segments(path), q, o.prepend[path],
                            GuardIndex(path, routeGuards));
      }
    }
  }

  /** The segments are the parts of the path between its dots. */
  function Dotted(segments: seq<string>): string
    requires segments != []
  {
    if |segments| == 1 then segments[0] else segments[0] + "." + Dotted(segments[1..])
  }

  lemma SegmentsAreThePath(path: string)
    requires path in PREPEND_PATHS
    ensures Dotted(Segments(path)) == path && forall s | s in Segments(path) :: '.' !in s
  {
    var segments := Segments(path);
    if |segments| == 2 {
      assert segments[1..] == [segments[1]];
    }
  }

  // ---- What merging means -------------------------------------------------------------------------

  /** The patch has its say wherever it says something: a null removes the member, any other value but an
      object is there, and where it has an object there is one. */
  lemma {:induction false} PatchDecides(m: Fields, patch: Fields, path: seq<string>)
    requires path != [] && At(patch, path).Some?
    ensures var v, r := At(patch, path).value, At(MergeFields(m, Obj(patch)), path);
            && (v == Null ==> r == None)
            && (v != Null && !v.Obj? ==> r == Some(v))
            && (v.Obj? ==> r.Some? && r.value.Obj?)
    decreases |path|
  {
    if |path| > 1 {
      PatchDecides(FieldsOf(Field(m, path[0])), patch[path[0]].fields, path[1..]);
    }
  }

  /** And what it does not shadow stays as it was, there or not there. */
  lemma {:induction false} PatchIsSilent(m: Fields, patch: Fields, path: seq<string>)
    requires path != [] && ShadowDepth(patch, path) == 0
    ensures At(MergeFields(m, Obj(patch)), path) == At(m, path)
    decreases |path|
  {
    if path[0] in patch {
      var inner := patch[path[0]].fields;
      PatchIsSilent(FieldsOf(Field(m, path[0])), inner, path[1..]);
      if At(m, path).None? && (path[0] !in m || !m[path[0]].Obj?) { NothingAt(path[1..]); }
    }
  }

  lemma NothingAt(path: seq<string>)
    requires path != []
    ensures At(map[], path) == None
  {
  }
}
