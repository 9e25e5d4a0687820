/**
 * Inlining of "$ref" objects into a request body schema
 * (control-plane/app/request_limits.py, json_body_openapi).
 */
module SchemaInline {
  import opened Sequences
  import opened Json

  const REF := "$ref"

  /** s.rsplit("/", 1)[1]; None is the IndexError. */
  function AfterLastSlash(s: string): Option<string> {
    if s == "" then None
    else if Last(s) == '/' then Some("")
    else
      match AfterLastSlash(Init(s))
      case None => None
      case Some(name) => Some(name + [Last(s)])
  }

  /** The definition that a "$ref" value names; None when looking it up raises. */
  function Target(value: Json, defs: map<string, Json>): Option<string> {
    if !value.Str? then None
    else
      match AfterLastSlash(value.s)
      case None => None
      case Some(name) => if name in defs then Some(name) else None
  }

  predicate IsRef(v: Json) {
    v.Obj? && REF in v.fields
  }

  /** inline(v), following references at most fuel deep: None when it raises or goes deeper. */
  function Inline(fuel: nat, v: Json, defs: map<string, Json>): Option<Json>
    decreases fuel, v, 0
  {
    match v
    case Arr(items) =>
      if forall i :: 0 <= i < |items| ==> Inline(fuel, items[i], defs).Some?
      then Some(Arr(seq(|items|, i requires 0 <= i < |items| => Inlined(fuel, items[i], defs))))
      else None
    case Obj(fields) =>
      if REF in fields then
        match Target(fields[REF], defs)
        case None => None
        case Some(name) => if fuel == 0 then None else Inline(fuel - 1, defs[name], defs)
      else if forall k :: k in fields ==> Inline(fuel, fields[k], defs).Some?
      then Some(Obj(map k | k in fields :: Inlined(fuel, fields[k], defs)))
      else None
    case _ => Some(v)
  }

  function Inlined(fuel: nat, v: Json, defs: map<string, Json>): Json
    requires Inline(fuel, v, defs).Some?
    decreases fuel, v, 1
  {
    Inline(fuel, v, defs).value
  }

  /** inline(v) returns. */
  ghost predicate Returns(v: Json, defs: map<string, Json>) {
    exists fuel: nat :: Inline(fuel, v, defs).Some?
  }

  lemma {:induction false} MoreFuel(fuel: nat, more: nat, v: Json, defs: map<string, Json>)
    requires fuel <= more && Inline(fuel, v, defs).Some?
    ensures Inline(more, v, defs) == Inline(fuel, v, defs)
    decreases fuel, v
  {
    match v
    case Arr(items) =>
      forall i | 0 <= i < |items| ensures Inline(more, items[i], defs) == Inline(fuel, items[i], defs) {
        MoreFuel(fuel, more, items[i], defs);
      }
      assert Inline(more, v, defs).value.items == Inline(fuel, v, defs).value.items;
    case Obj(fields) =>
      if IsRef(v) {
        MoreFuel(fuel - 1, more - 1, defs[Target(fields[REF], defs).value], defs);
      } else {
        forall k | k in fields ensures Inline(more, fields[k], defs) == Inline(fuel, fields[k], defs) {
          MoreFuel(fuel, more, fields[k], defs);
        }
        assert Inline(more, v, defs).value.fields == Inline(fuel, v, defs).value.fields;
      }
    case _ =>
  }

  // ---------------------------------------------------------------------
  // It returns exactly when the references it meets resolve and form no cycle
  // ---------------------------------------------------------------------

  /** Every reference met in v, without following any, names a definition ranked below the bound. */
  ghost predicate RanksBelow(v: Json, rank: map<string, nat>, bound: nat, defs: map<string, Json>) {
    match v
    case Arr(items) => forall i :: 0 <= i < |items| ==> RanksBelow(items[i], rank, bound, defs)
    case Obj(fields) =>
      if REF in fields then
        match Target(fields[REF], defs)
        case None => false
        case Some(name) => name in rank && rank[name] < bound
      else forall k :: k in fields ==> RanksBelow(fields[k], rank, bound, defs)
    case _ => true
  }

  /** References go down in rank: the reference graph on these definitions has no cycle. */
  ghost predicate IsRanking(rank: map<string, nat>, defs: map<string, Json>) {
    forall d :: d in rank ==> d in defs && RanksBelow(defs[d], rank, rank[d], defs)
  }

  ghost predicate IsAcyclicFrom(v: Json, defs: map<string, Json>) {
    exists rank: map<string, nat>, bound: nat :: IsRanking(rank, defs) && RanksBelow(v, rank, bound, defs)
  }

  lemma {:induction false} RankedReturns(v: Json, rank: map<string, nat>, bound: nat, defs: map<string, Json>)
    requires IsRanking(rank, defs) && RanksBelow(v, rank, bound, defs)
    ensures Inline(bound, v, defs).Some?
    decreases bound, v
  {
    match v
    case Arr(items) =>
      forall i | 0 <= i < |items| ensures Inline(bound, items[i], defs).Some? {
        RankedReturns(items[i], rank, bound, defs);
      }
    case Obj(fields) =>
      if IsRef(v) {
        var name := Target(fields[REF], defs).value;
        RankedReturns(defs[name], rank, rank[name], defs);
        MoreFuel(rank[name], bound - 1, defs[name], defs);
      } else {
        forall k | k in fields ensures Inline(bound, fields[k], defs).Some? {
          RankedReturns(fields[k], rank, bound, defs);
        }
      }
    case _ =>
  }

  /** The least fuel, at most the given one, with which inlining returns. */
  ghost function LeastFuel(v: Json, defs: map<string, Json>, fuel: nat): (n: nat)
    requires Inline(fuel, v, defs).Some?
    ensures Inline(n, v, defs).Some? && (n > 0 ==> Inline(n - 1, v, defs).None?)
  {
    if fuel > 0 && Inline(fuel - 1, v, defs).Some? then LeastFuel(v, defs, fuel - 1) else fuel
  }

  ghost function Depth(v: Json, defs: map<string, Json>): (n: nat)
    requires Returns(v, defs)
    ensures Inline(n, v, defs).Some? && (n > 0 ==> Inline(n - 1, v, defs).None?)
  {
    var fuel: nat :| Inline(fuel, v, defs).Some?;
    LeastFuel(v, defs, fuel)
  }

  lemma {:induction false} DepthIsLeast(v: Json, defs: map<string, Json>, fuel: nat)
    requires Inline(fuel, v, defs).Some?
    ensures Returns(v, defs) && Depth(v, defs) <= fuel
  {
    var n := Depth(v, defs);
    if fuel < n {
      MoreFuel(fuel, n - 1, v, defs);
    }
  }

  ghost function Depths(defs: map<string, Json>): map<string, nat> {
    map d | d in defs && Returns(defs[d], defs) :: Depth(defs[d], defs)
  }

  lemma {:induction false} ReturningIsRanked(fuel: nat, v: Json, defs: map<string, Json>)
    requires Inline(fuel, v, defs).Some?
    ensures RanksBelow(v, Depths(defs), fuel, defs)
    decreases v
  {
    match v
    case Arr(items) =>
      forall i | 0 <= i < |items| ensures RanksBelow(items[i], Depths(defs), fuel, defs) {
        ReturningIsRanked(fuel, items[i], defs);
      }
    case Obj(fields) =>
      if IsRef(v) {
        DepthIsLeast(defs[Target(fields[REF], defs).value], defs, fuel - 1);
      } else {
        forall k | k in fields ensures RanksBelow(fields[k], Depths(defs), fuel, defs) {
          ReturningIsRanked(fuel, fields[k], defs);
        }
      }
    case _ =>
  }

  /** Inlining returns if and only if the definitions it reaches can be ranked so that references only go down. */
  lemma ReturnsExactlyWhenAcyclic(v: Json, defs: map<string, Json>)
    ensures Returns(v, defs) <==> IsAcyclicFrom(v, defs)
  {
    hide Inline, RanksBelow;
    if Returns(v, defs) {
      var fuel: nat :| Inline(fuel, v, defs).Some?;
      var rank := Depths(defs);
      ReturningIsRanked(fuel, v, defs);
      forall d | d in rank ensures RanksBelow(defs[d], rank, rank[d], defs) {
        ReturningIsRanked(rank[d], defs[d], defs);
      }
      assert IsRanking(rank, defs);
    }
    if IsAcyclicFrom(v, defs) {
      var rank: map<string, nat>, bound: nat :| IsRanking(rank, defs) && RanksBelow(v, rank, bound, defs);
      RankedReturns(v, rank, bound, defs);
    }
  }

  // ---------------------------------------------------------------------
  // The result has no reference left
  // ---------------------------------------------------------------------

  predicate NoRef(v: Json) {
    match v
    case Arr(items) => forall i :: 0 <= i < |items| ==> NoRef(items[i])
    case Obj(fields) => REF !in fields && forall k :: k in fields ==> NoRef(fields[k])
    case _ => true
  }

  lemma {:induction false} ResultHasNoRef(fuel: nat, v: Json, defs: map<string, Json>)
    requires Inline(fuel, v, defs).Some?
    ensures NoRef(Inline(fuel, v, defs).value)
    decreases fuel, v
  {
    match v
    case Arr(items) =>
      forall i | 0 <= i < |items| ensures NoRef(Inlined(fuel, items[i], defs)) {
        ResultHasNoRef(fuel, items[i], defs);
      }
    case Obj(fields) =>
      if IsRef(v) {
        ResultHasNoRef(fuel - 1, defs[Target(fields[REF], defs).value], defs);
      } else {
        forall k | k in fields ensures NoRef(Inlined(fuel, fields[k], defs)) {
          ResultHasNoRef(fuel, fields[k], defs);
        }
      }
    case _ =>
  }

  lemma {:induction false} NothingToInline(fuel: nat, v: Json, defs: map<string, Json>)
    requires NoRef(v)
    ensures Inline(fuel, v, defs) == Some(v)
    decreases v
  {
    match v
    case Arr(items) =>
      forall i | 0 <= i < |items| ensures Inline(fuel, items[i], defs) == Some(items[i]) {
        NothingToInline(fuel, items[i], defs);
      }
      assert Inline(fuel, v, defs).value.items == items;
    case Obj(fields) =>
      forall k | k in fields ensures Inline(fuel, fields[k], defs) == Some(fields[k]) {
        NothingToInline(fuel, fields[k], defs);
      }
      assert Inline(fuel, v, defs).value.fields == fields;
    case _ =>
  }

  /** Inlining what was inlined, with the same or any other definitions, gives it back. */
  lemma InliningIsIdempotent(
    fuel: nat, v: Json, defs: map<string, Json>, again: nat, others: map<string, Json>)
    requires Inline(fuel, v, defs).Some?
    ensures Inline(again, Inline(fuel, v, defs).value, others) == Inline(fuel, v, defs)
  {
    ResultHasNoRef(fuel, v, defs);
    NothingToInline(again, Inline(fuel, v, defs).value, others);
  }

  // ---------------------------------------------------------------------
  // The result reads as the schema does when its references are followed
  // ---------------------------------------------------------------------

  datatype Seg = Key(k: string) | Index(i: nat)

  /** What is seen at a node without going further down. */
  datatype Label = Scalar(v: Json) | Items(count: nat) | Fields(keys: set<string>)

  function LabelOf(v: Json): Label {
    match v
    case Arr(items) => Items(|items|)
    case Obj(fields) => Fields(fields.Keys)
    case _ => Scalar(v)
  }

  function Child(v: Json, seg: Seg): Option<Json> {
    match (v, seg)
    case (Arr(items), Index(i)) => if i < |items| then Some(items[i]) else None
    case (Obj(fields), Key(k)) => if k in fields then Some(fields[k]) else None
    case _ => None
  }

  /** The node that v stands for: v itself, or what its reference leads to, at most fuel references on. */
  function Resolve(fuel: nat, v: Json, defs: map<string, Json>): Option<Json> {
    if !IsRef(v) then Some(v)
    else
      match Target(v.fields[REF], defs)
      case None => None
      case Some(name) => if fuel == 0 then None else Resolve(fuel - 1, defs[name], defs)
  }

  /** Walking down a path, resolving a reference wherever one is met. */
  function Read(fuel: nat, v: Json, path: seq<Seg>, defs: map<string, Json>): Option<Label>
    decreases |path|
  {
    match Resolve(fuel, v, defs)
    case None => None
    case Some(node) =>
      if path == [] then Some(LabelOf(node))
      else
        match Child(node, path[0])
        case None => None
        case Some(child) => Read(fuel, child, path[1..], defs)
  }

  lemma {:induction false} ResolvedInlinesAlike(fuel: nat, v: Json, defs: map<string, Json>) returns (rest: nat)
    requires Inline(fuel, v, defs).Some?
    ensures rest <= fuel && Resolve(fuel, v, defs).Some? && !IsRef(Resolve(fuel, v, defs).value)
    ensures Inline(rest, Resolve(fuel, v, defs).value, defs) == Inline(fuel, v, defs)
    decreases fuel
  {
    if IsRef(v) {
      rest := ResolvedInlinesAlike(fuel - 1, defs[Target(v.fields[REF], defs).value], defs);
    } else {
      rest := fuel;
    }
  }

  lemma ChildrenCorrespond(fuel: nat, node: Json, seg: Seg, defs: map<string, Json>)
    requires !IsRef(node) && Inline(fuel, node, defs).Some?
    ensures LabelOf(node) == LabelOf(Inline(fuel, node, defs).value)
    ensures Child(Inline(fuel, node, defs).value, seg) ==
            match Child(node, seg) case None => None case Some(c) => Inline(fuel, c, defs)
    ensures Child(node, seg).Some? ==> Inline(fuel, Child(node, seg).value, defs).Some?
  {
    match node
    case Obj(fields) =>
      assert Inline(fuel, node, defs).value.fields.Keys == fields.Keys;
    case _ =>
  }

  /** Along every path the inlined schema shows what the schema shows when references are followed on the way. */
  lemma {:induction false} InliningIsUnfolding(fuel: nat, v: Json, defs: map<string, Json>, path: seq<Seg>)
    requires Inline(fuel, v, defs).Some?
    ensures Read(0, Inline(fuel, v, defs).value, path, map[]) == Read(fuel, v, path, defs)
    decreases |path|
  {
    hide Inline;
    var r := Inline(fuel, v, defs).value;
    ResultHasNoRef(fuel, v, defs);
    var rest := ResolvedInlinesAlike(fuel, v, defs);
    var node := Resolve(fuel, v, defs).value;
    if path == [] {
      ChildrenCorrespond(rest, node, Index(0), defs);
    } else {
      ChildrenCorrespond(rest, node, path[0], defs);
      if Child(node, path[0]).Some? {
        var child := Child(node, path[0]).value;
        MoreFuel(rest, fuel, child, defs);
        InliningIsUnfolding(fuel, child, defs, path[1..]);
      }
    }
  }

  /** And only it does: two reference-free values that read alike along every path are equal. */
  lemma {:induction false} ReadingDeterminesTheValue(a: Json, b: Json)
    requires NoRef(a) && NoRef(b)
    requires forall path :: Read(0, a, path, map[]) == Read(0, b, path, map[])
    ensures a == b
    decreases a
  {
    assert Read(0, a, [], map[]) == Some(LabelOf(a)) && Read(0, b, [], map[]) == Some(LabelOf(b));
    match a
    case Arr(items) =>
      forall i: nat | i < |items| ensures items[i] == b.items[i] {
        ReadsBelow(a, b, Index(i));
        ReadingDeterminesTheValue(items[i], b.items[i]);
      }
    case Obj(fields) =>
      assert fields.Keys == b.fields.Keys;
      forall k | k in fields ensures fields[k] == b.fields[k] {
        ReadsBelow(a, b, Key(k));
        ReadingDeterminesTheValue(fields[k], b.fields[k]);
      }
    case _ =>
  }

  lemma ReadsBelow(a: Json, b: Json, seg: Seg)
    requires !IsRef(a) && !IsRef(b)
    requires forall path :: Read(0, a, path, map[]) == Read(0, b, path, map[])
    requires Child(a, seg).Some? && Child(b, seg).Some?
    ensures forall path :: Read(0, Child(a, seg).value, path, map[]) == Read(0, Child(b, seg).value, path, map[])
  {
    forall path ensures Read(0, Child(a, seg).value, path, map[]) == Read(0, Child(b, seg).value, path, map[]) {
      var whole := [seg] + path;
      assert whole[0] == seg && whole[1..] == path;
      assert Read(0, a, whole, map[]) == Read(0, b, whole, map[]);
    }
  }

  // ---------------------------------------------------------------------
  // Which definition a reference names
  // ---------------------------------------------------------------------

  lemma {:induction false} LastSlashByText(prefix: string, name: string)
    requires '/' !in name
    ensures AfterLastSlash(prefix + "/" + name) == Some(name)
  {
    var s := prefix + "/" + name;
    if name == "" {
      assert Last(s) == '/';
    } else {
      assert Init(s) == prefix + "/" + Init(name) && Last(s) == Last(name);
      LastSlashByText(prefix, Init(name));
      assert name == Init(name) + [Last(name)];
    }
  }

  lemma {:induction false} NoSlashByText(s: string)
    ensures AfterLastSlash(s) == None <==> '/' !in s
  {
    if s != "" {
      NoSlashByText(Init(s));
    }
  }

  /** A text with a slash is some prefix, its last slash, and a name without one. */
  lemma {:induction false} SplitAtLastSlash(s: string) returns (prefix: string, name: string)
    requires '/' in s
    ensures s == prefix + "/" + name && '/' !in name
  {
    if Last(s) == '/' {
      prefix, name := Init(s), "";
    } else {
      var n;
      prefix, n := SplitAtLastSlash(Init(s));
      name := n + [Last(s)];
    }
  }

  /** The text names the definition: it ends in a slash and that name, which has no slash. */
  ghost predicate NamesDefinition(text: string, name: string) {
    '/' !in name && exists prefix: string :: text == prefix + "/" + name
  }

  /**
   * A reference stands for the definition named after its last slash, at one
   * reference less; it raises if it is no text, has no slash, or names nothing.
   */
  lemma ReferenceByText(fuel: nat, fields: map<string, Json>, defs: map<string, Json>)
    requires "$ref" in fields
    ensures forall name :: fields["$ref"].Str? && NamesDefinition(fields["$ref"].s, name) && name in defs && fuel > 0 ==>
              Inline(fuel, Obj(fields), defs) == Inline(fuel - 1, defs[name], defs)
    ensures Inline(fuel, Obj(fields), defs).Some? ==>
              fields["$ref"].Str? && exists name :: NamesDefinition(fields["$ref"].s, name) && name in defs
  {
    var v := fields["$ref"];
    if v.Str? {
      NoSlashByText(v.s);
      if '/' in v.s {
        var prefix, name := SplitAtLastSlash(v.s);
        LastSlashByText(prefix, name);
        assert NamesDefinition(v.s, name);
      }
      forall name | NamesDefinition(v.s, name) ensures AfterLastSlash(v.s) == Some(name) {
        var prefix: string :| v.s == prefix + "/" + name;
        LastSlashByText(prefix, name);
      }
    }
  }

  ghost predicate ListKept(fuel: nat, items: seq<Json>, r: Json, defs: map<string, Json>) {
    && r.Arr? && |r.items| == |items|
    && forall i :: 0 <= i < |items| ==> Inline(fuel, items[i], defs) == Some(r.items[i])
  }

  ghost predicate ObjectKept(fuel: nat, fields: map<string, Json>, r: Json, defs: map<string, Json>) {
    && r.Obj? && r.fields.Keys == fields.Keys
    && forall k :: k in fields ==> Inline(fuel, fields[k], defs) == Some(r.fields[k])
  }

  /** Anything else keeps its shape: lists their length and order, objects their keys. */
  lemma ShapeByFields(fuel: nat, v: Json, defs: map<string, Json>)
    requires Inline(fuel, v, defs).Some?
    ensures v.Arr? ==> ListKept(fuel, v.items, Inline(fuel, v, defs).value, defs)
    ensures v.Obj? && "$ref" !in v.fields ==> ObjectKept(fuel, v.fields, Inline(fuel, v, defs).value, defs)
    ensures !v.Arr? && !v.Obj? ==> Inline(fuel, v, defs).value == v
  {
    if v.Arr? {
      assert forall i :: 0 <= i < |v.items| ==> Inline(fuel, v.items[i], defs).Some?;
    } else if v.Obj? && REF !in v.fields {
      assert forall k :: k in v.fields ==> Inline(fuel, v.fields[k], defs).Some?;
    }
  }
}
