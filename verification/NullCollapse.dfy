/** The OpenAPI publication pass of app/main.py: every `anyOf: [T, {"type": "null"}]` becomes T.

    Meaning is the JSON Schema 2020-12 one, for these keywords: `anyOf` and `allOf`
    (Core, section 10.2.1), `items` (10.3.1.2), `properties` (10.3.2.1), `$ref` (8.2.3.1), `type`
    (Validation, section 6.1.1), `required` (6.5.3) and annotations (section 9). Every other keyword
    is an arbitrary assertion `check(keyword, value, instance)`. */
module NullCollapse {
  import opened JsonValues

  const NULL_TYPE: Json := Obj(map["type" := Str("null")])

  const ANNOTATIONS: set<string> := {"title", "description", "default", "examples", "deprecated"}

  // ---------------------------------------------------------------- the rewrite

  /** The variants that are not `{"type": "null"}`, in order. */
  function NonNull(variants: seq<Json>): (rest: seq<Json>)
    ensures forall x :: x in rest <==> x in variants && x != NULL_TYPE
  {
    if variants == [] then []
    else if variants[0] == NULL_TYPE then NonNull(variants[1..])
    else [variants[0]] + NonNull(variants[1..])
  }

  /** The node is `anyOf` with the null variant and exactly one other. */
  predicate Collapsible(node: map<string, Json>) {
    && "anyOf" in node
    && node["anyOf"].Arr?
    && NULL_TYPE in node["anyOf"].items
    && |NonNull(node["anyOf"].items)| == 1
  }

  function Lone(node: map<string, Json>): (variant: Json)
    requires Collapsible(node)
    ensures forall x | x in node["anyOf"].items :: x == variant || x == NULL_TYPE
    ensures variant in node["anyOf"].items && variant != NULL_TYPE
  {
    var rest := NonNull(node["anyOf"].items);
    assert rest[0] in rest;
    assert forall x | x in rest :: x == rest[0];
    rest[0]
  }

  /** The variant's members win; the node's other members join, a non-null default overrides. */
  function Merge(node: map<string, Json>, variant: map<string, Json>): map<string, Json> {
    var merged := variant +
                  (map k | k in node && k != "anyOf" && k != "default" && k !in variant :: node[k]);
    if "default" in node && node["default"] != Null then merged["default" := node["default"]] else merged
  }

  /** `dict(variant)` raises on a variant that is not an object. */
  predicate Mergeable(node: map<string, Json>) {
    Collapsible(node) ==> Lone(node).Obj?
  }

  /** The dict whose values the pass recurses into. */
  function Effective(node: map<string, Json>): map<string, Json>
    requires Mergeable(node)
  {
    if Collapsible(node) then Merge(node, Lone(node).fields) else node
  }

  /** The merge brings in nothing but proper parts of the node, so recursing into it terminates. */
  lemma MergeShrinks(node: map<string, Json>)
    requires Mergeable(node)
    ensures forall k | k in Effective(node) :: Effective(node)[k] < Obj(node)
  {
  }

  /** The pass reaches no null-anyOf whose other variant is not an object. */
  predicate Rewritable(j: Json) {
    match j
    case Obj(node) =>
      Mergeable(node) && (
        MergeShrinks(node);
        forall k | k in Effective(node) :: Rewritable(Effective(node)[k]))
    case Arr(items) => forall x | x in items :: Rewritable(x)
    case _ => true
  }

  function Collapse(j: Json): Json
    requires Rewritable(j)
  {
    match j
    case Obj(node) =>
      MergeShrinks(node);
      Obj(map k | k in Effective(node) :: Collapse(Effective(node)[k]))
    case Arr(items) => Arr(seq(|items|, i requires 0 <= i < |items| => Collapse(items[i])))
    case _ => j
  }

  datatype Outcome = Published(doc: Json) | TypeError

  function Publish(j: Json): Outcome {
    if Rewritable(j) then Published(Collapse(j)) else TypeError
  }

  // ---------------------------------------------------------------- what is published

  /** One variant that is not `{"type": "null"}`, and otherwise nothing but that. */
  ghost predicate OneBesideNull(anyOf: Json, variant: Json) {
    && anyOf.Arr? && |anyOf.items| > 1 && variant != NULL_TYPE
    && exists k | 0 <= k < |anyOf.items| :: anyOf.items[k] == variant && OthersNull(anyOf.items, k)
  }

  ghost predicate OthersNull(items: seq<Json>, k: nat) {
    forall i | 0 <= i < |items| && i != k :: items[i] == NULL_TYPE
  }

  lemma {:induction false} NonNullOfNulls(items: seq<Json>)
    requires forall i | 0 <= i < |items| :: items[i] == NULL_TYPE
    ensures NonNull(items) == []
  {
    if items == [] {
    } else {
      NonNullOfNulls(items[1..]);
    }
  }

  lemma {:induction false} NonNullIsOne(items: seq<Json>, k: nat)
    requires k < |items| && items[k] != NULL_TYPE && OthersNull(items, k)
    ensures NonNull(items) == [items[k]]
  {
    if k == 0 {
      NonNullOfNulls(items[1..]);
    } else {
      NonNullIsOne(items[1..], k - 1);
    }
  }

  lemma {:induction false} OneIsNonNull(items: seq<Json>) returns (k: nat)
    requires |NonNull(items)| == 1
    ensures k < |items| && NonNull(items) == [items[k]] && OthersNull(items, k)
  {
    if items[0] == NULL_TYPE {
      var rest := OneIsNonNull(items[1..]);
      k := rest + 1;
    } else {
      forall i | 0 < i < |items| ensures items[i] == NULL_TYPE {
        assert items[i] == items[1..][i - 1] && items[1..][i - 1] in items[1..];
        assert NonNull(items[1..]) == [];
      }
      k := 0;
    }
  }

  /** The nodes the pass merges, and with what. */
  lemma CollapsibleIff(node: map<string, Json>, variant: Json)
    ensures Collapsible(node) && Lone(node) == variant <==> "anyOf" in node && OneBesideNull(node["anyOf"], variant)
  {
    if Collapsible(node) {
      var k := OneIsNonNull(node["anyOf"].items);
      assert NULL_TYPE in node["anyOf"].items;
    }
    if "anyOf" in node && OneBesideNull(node["anyOf"], variant) {
      var items := node["anyOf"].items;
      var k :| 0 <= k < |items| && items[k] == variant && OthersNull(items, k);
      NonNullIsOne(items, k);
      assert items[if k == 0 then 1 else 0] == NULL_TYPE;
    }
  }

  predicate HasDefault(node: map<string, Json>) {
    "default" in node && node["default"] != Null
  }

  /** The member k published for a null-anyOf comes from v: a member of the variant, or one of the node
      that the variant lacks, `anyOf` and `default` aside; a default of the node that is not null comes
      before the variant's. */
  ghost predicate ComesFrom(node: map<string, Json>, variant: map<string, Json>, k: string, v: Json) {
    || (k in variant && v == variant[k] && !(k == "default" && HasDefault(node)))
    || (k in node && v == node[k] && k !in variant && k != "anyOf" && k != "default")
    || (k == "default" && HasDefault(node) && v == node[k])
  }

  /** What is published for a null-anyOf: exactly those members, each published in its turn; the pass
      raises exactly when one of them does. So title, description, examples and whatever else the node
      says of itself stay. */
  lemma PublishedNullable(node: map<string, Json>, variant: map<string, Json>)
    requires "anyOf" in node && OneBesideNull(node["anyOf"], Obj(variant))
    ensures Publish(Obj(node)).Published? <==> forall k, v | ComesFrom(node, variant, k, v) :: Publish(v).Published?
    ensures Publish(Obj(node)).Published? ==>
              && Publish(Obj(node)).doc.Obj?
              && var out := Publish(Obj(node)).doc.fields;
                 && (forall k, v | ComesFrom(node, variant, k, v) :: k in out && Publish(v) == Published(out[k]))
                 && (forall k | k in out :: exists v :: ComesFrom(node, variant, k, v))
  {
    CollapsibleIff(node, Obj(variant));
    MergeShrinks(node);
    hide Collapsible, OneBesideNull;
    var merged := Effective(node);
    forall k, v ensures ComesFrom(node, variant, k, v) <==> k in merged && merged[k] == v {
    }
    hide Effective, ComesFrom;
    assert Publish(Obj(node)).Published? <==> forall k | k in merged :: Rewritable(merged[k]);
    forall k | k in merged ensures ComesFrom(node, variant, k, merged[k]) {
    }
  }

  /** One whose other variant is not an object raises. */
  lemma ScalarVariantRaises(node: map<string, Json>, variant: Json)
    requires "anyOf" in node && OneBesideNull(node["anyOf"], variant) && !variant.Obj?
    ensures Publish(Obj(node)) == TypeError
  {
    CollapsibleIff(node, variant);
  }

  /** Every other object keeps exactly its keys, every list its length and order, and all else is as it
      was. */
  lemma PublishedElsewhere(j: Json)
    requires j.Obj? && "anyOf" in j.fields ==> forall variant :: !OneBesideNull(j.fields["anyOf"], variant)
    ensures match j
            case Obj(node) =>
              && (Publish(j).Published? <==> forall k | k in node :: Publish(node[k]).Published?)
              && (Publish(j).Published? ==>
                    && Publish(j).doc.Obj? && Publish(j).doc.fields.Keys == node.Keys
                    && forall k | k in node :: Publish(node[k]) == Published(Publish(j).doc.fields[k]))
            case Arr(items) =>
              && (Publish(j).Published? <==> forall i | 0 <= i < |items| :: Publish(items[i]).Published?)
              && (Publish(j).Published? ==>
                    && Publish(j).doc.Arr? && |Publish(j).doc.items| == |items|
                    && forall i | 0 <= i < |items| :: Publish(items[i]) == Published(Publish(j).doc.items[i]))
            case _ => Publish(j) == Published(j)
  {
    match j
    case Obj(node) =>
      if Collapsible(node) {
        CollapsibleIff(node, Lone(node));
      }
      MergeShrinks(node);
      assert Effective(node) == node;
      hide Collapsible, Effective, OneBesideNull;
      assert Rewritable(j) <==> forall k | k in node :: Rewritable(node[k]);
    case _ =>
  }

  // ---------------------------------------------------------------- meaning

  /** What a schema member means. */
  datatype Role = Annotation | AnyOf | AllOf | Items | Properties | Ref | Type | Required | Other

  function RoleOf(k: string): Role {
    if k in ANNOTATIONS then Annotation
    else if k == "anyOf" then AnyOf
    else if k == "allOf" then AllOf
    else if k == "items" then Items
    else if k == "properties" then Properties
    else if k == "$ref" then Ref
    else if k == "type" then Type
    else if k == "required" then Required
    else Other
  }

  lemma KnownRoles()
    ensures RoleOf("anyOf") == AnyOf && RoleOf("type") == Type && RoleOf("default") == Annotation
    ensures forall k :: RoleOf(k) == AnyOf ==> k == "anyOf"
  {
  }

  predicate HasType(name: Json, i: Json) {
    match i
    case Null => name == Str("null")
    case Bool(_) => name == Str("boolean")
    case Num(n) => name == Str("number") || (name == Str("integer") && n == n.Floor as real)
    case Str(_) => name == Str("string")
    case Arr(_) => name == Str("array")
    case Obj(_) => name == Str("object")
  }

  /** The schema accepts the instance, following at most `fuel` references. */
  ghost predicate Accepts(defs: map<string, Json>, check: (string, Json, Json) -> bool,
                          schema: Json, i: Json, fuel: nat)
    decreases fuel, schema, 0
  {
    match schema
    case Bool(b) => b
    case Obj(node) => forall k | k in node :: Keyword(defs, check, k, node[k], i, fuel)
    case _ => false
  }

  ghost predicate Keyword(defs: map<string, Json>, check: (string, Json, Json) -> bool,
                          k: string, v: Json, i: Json, fuel: nat)
    decreases fuel, v, 1
  {
    match RoleOf(k)
    case Annotation => true
    case AnyOf => v.Arr? ==> exists x | x in v.items :: Accepts(defs, check, x, i, fuel)
    case AllOf => v.Arr? ==> forall x | x in v.items :: Accepts(defs, check, x, i, fuel)
    case Items => i.Arr? ==> forall x | x in i.items :: Accepts(defs, check, v, x, fuel)
    case Properties =>
      v.Obj? && i.Obj? ==>
        forall p | p in v.fields && p in i.fields :: Accepts(defs, check, v.fields[p], i.fields[p], fuel)
    case Ref => v.Str? && v.s in defs && fuel > 0 && Accepts(defs, check, defs[v.s], i, fuel - 1)
    case Type => if v.Arr? then exists t | t in v.items :: HasType(t, i) else HasType(v, i)
    case Required => v.Arr? && i.Obj? ==> forall name | name in v.items :: name.Str? && name.s in i.fields
    case Other => check(k, v, i)
  }

  // ---------------------------------------------------------------- well-formed schemas

  /** No node the pass would rewrite. */
  predicate Plain(j: Json) {
    match j
    case Obj(node) => !Collapsible(node) && forall k | k in node :: Plain(node[k])
    case Arr(items) => forall x | x in items :: Plain(x)
    case _ => true
  }

  /** The siblings of a null-anyOf are annotations, or constraints the variant does not contradict. */
  predicate Compatible(node: map<string, Json>, variant: map<string, Json>) {
    forall k | k in node && k != "anyOf" && RoleOf(k) != Annotation :: k in variant ==> variant[k] == node[k]
  }

  /** A schema of the supported vocabulary, at every place the pass recurses into. */
  predicate Sound(schema: Json)
    decreases schema, 0
  {
    match schema
    case Bool(_) => true
    case Obj(node) =>
      Mergeable(node) && (Collapsible(node) ==> Compatible(node, Lone(node).fields)) && (
        MergeShrinks(node);
        forall k | k in Effective(node) :: SoundKeyword(k, Effective(node)[k]))
    case _ => false
  }

  predicate SoundKeyword(k: string, v: Json)
    decreases v, 1
  {
    match RoleOf(k)
    case Annotation => Rewritable(v)
    case AnyOf => v.Arr? && forall x | x in v.items :: Sound(x)
    case AllOf => v.Arr? && forall x | x in v.items :: Sound(x)
    case Items => Sound(v)
    case Properties => v.Obj? && !Collapsible(v.fields) && forall p | p in v.fields :: Sound(v.fields[p])
    case Ref => v.Str?
    case Type => v.Str? || (v.Arr? && forall t | t in v.items :: t.Str?)
    case Required => v.Arr? && forall t | t in v.items :: t.Str?
    case Other => Plain(v)
  }

  lemma PlainUnchanged(j: Json)
    requires Plain(j)
    ensures Rewritable(j) && Collapse(j) == j
  {
  }

  lemma SoundRewritable(schema: Json)
    requires Sound(schema)
    ensures Rewritable(schema)
    decreases schema, 0
  {
    if schema.Obj? {
      MergeShrinks(schema.fields);
      forall k | k in Effective(schema.fields) ensures Rewritable(Effective(schema.fields)[k]) {
        SoundKeywordRewritable(k, Effective(schema.fields)[k]);
      }
    }
  }

  lemma SoundKeywordRewritable(k: string, v: Json)
    requires SoundKeyword(k, v)
    ensures Rewritable(v)
    decreases v, 1
  {
    match RoleOf(k)
    case Annotation =>
    case AnyOf => forall x | x in v.items { SoundRewritable(x); }
    case AllOf => forall x | x in v.items { SoundRewritable(x); }
    case Items => SoundRewritable(v);
    case Properties => forall p | p in v.fields { SoundRewritable(v.fields[p]); }
    case _ => PlainUnchanged(v);
  }

  // ---------------------------------------------------------------- the pass keeps meaning

  /** The document's definitions after the pass. */
  function CollapseDefs(defs: map<string, Json>): map<string, Json>
    requires forall name | name in defs :: Rewritable(defs[name])
  {
    map name | name in defs :: Collapse(defs[name])
  }

  ghost predicate SoundDefs(defs: map<string, Json>) {
    forall name | name in defs :: Sound(defs[name]) && Rewritable(defs[name])
  }

  /** A constraint beside the null-anyOf that the variant restates differently. */
  predicate Clashes(node: map<string, Json>, variant: map<string, Json>, k: string) {
    k in node && k != "anyOf" && RoleOf(k) != Annotation && k in variant && variant[k] != node[k]
  }

  /** Up to annotations the merged dict is the variant and the node's other members but for clashes. */
  lemma MergedMembers(node: map<string, Json>)
    requires Collapsible(node) && Lone(node).Obj?
    ensures forall k | k in Lone(node).fields && RoleOf(k) != Annotation ::
              k in Effective(node) && Effective(node)[k] == Lone(node).fields[k]
    ensures forall k | k in node && k != "anyOf" && RoleOf(k) != Annotation ::
              k in Effective(node) && (Clashes(node, Lone(node).fields, k) || Effective(node)[k] == node[k])
    ensures forall k | k in Effective(node) && RoleOf(k) != Annotation ::
              || (k in Lone(node).fields && Effective(node)[k] == Lone(node).fields[k])
              || (k in node && k != "anyOf" && Effective(node)[k] == node[k])
  {
  }

  lemma AnnotationsHold(defs: map<string, Json>, check: (string, Json, Json) -> bool, i: Json, fuel: nat)
    ensures forall k, v | RoleOf(k) == Annotation :: Keyword(defs, check, k, v, i, fuel)
  {
  }

  lemma SomeVariant(defs: map<string, Json>, check: (string, Json, Json) -> bool, v: Json, x: Json, i: Json, fuel: nat)
    requires v.Arr? && x in v.items && Accepts(defs, check, x, i, fuel)
    ensures Keyword(defs, check, "anyOf", v, i, fuel)
  {
  }

  lemma MergedVariant(defs: map<string, Json>, check: (string, Json, Json) -> bool,
                      node: map<string, Json>, i: Json, fuel: nat)
    requires Collapsible(node) && Lone(node).Obj?
    requires Accepts(defs, check, Obj(Effective(node)), i, fuel)
    ensures Accepts(defs, check, Lone(node), i, fuel)
  {
    var variant := Lone(node).fields;
    MergedMembers(node);
    AnnotationsHold(defs, check, i, fuel);
    hide Effective, Collapsible, Keyword, Clashes, RoleOf;
    forall k | k in variant ensures Keyword(defs, check, k, variant[k], i, fuel) {
      if RoleOf(k) != Annotation {
        assert Keyword(defs, check, k, Effective(node)[k], i, fuel);
      }
    }
  }

  lemma MergedSiblings(defs: map<string, Json>, check: (string, Json, Json) -> bool,
                       node: map<string, Json>, i: Json, fuel: nat)
    requires Collapsible(node) && Lone(node).Obj?
    requires Accepts(defs, check, Obj(Effective(node)), i, fuel)
    ensures forall k | k in node && k != "anyOf" && !Clashes(node, Lone(node).fields, k) :: Keyword(defs, check, k, node[k], i, fuel)
  {
    MergedMembers(node);
    AnnotationsHold(defs, check, i, fuel);
    hide Effective, Collapsible, Keyword, Clashes, RoleOf;
    forall k | k in node && k != "anyOf" && !Clashes(node, Lone(node).fields, k)
      ensures Keyword(defs, check, k, node[k], i, fuel)
    {
      if RoleOf(k) != Annotation {
        assert Keyword(defs, check, k, Effective(node)[k], i, fuel);
      }
    }
  }

  lemma MergedAccepts(defs: map<string, Json>, check: (string, Json, Json) -> bool,
                      node: map<string, Json>, i: Json, fuel: nat)
    requires Collapsible(node) && Lone(node).Obj?
    requires Accepts(defs, check, Obj(Effective(node)), i, fuel)
    requires forall k | Clashes(node, Lone(node).fields, k) :: Keyword(defs, check, k, node[k], i, fuel)
    ensures Accepts(defs, check, Obj(node), i, fuel)
  {
    MergedVariant(defs, check, node, i, fuel);
    MergedSiblings(defs, check, node, i, fuel);
    SomeVariant(defs, check, node["anyOf"], Lone(node), i, fuel);
    hide Effective, Keyword, Clashes, RoleOf, NonNull;
  }

  lemma NodeAccepts(defs: map<string, Json>, check: (string, Json, Json) -> bool,
                    node: map<string, Json>, i: Json, fuel: nat)
    requires Collapsible(node) && Lone(node).Obj?
    requires Accepts(defs, check, Obj(node), i, fuel) && i != Null
    ensures Accepts(defs, check, Obj(Effective(node)), i, fuel)
  {
    NodeAcceptsVariant(defs, check, node, i, fuel);
    MergedMembers(node);
    AnnotationsHold(defs, check, i, fuel);
    var variant, merged := Lone(node), Effective(node);
    hide Effective, Collapsible, Keyword, Clashes, RoleOf;
    forall k | k in merged ensures Keyword(defs, check, k, merged[k], i, fuel) {
      if RoleOf(k) != Annotation {
        assert k in variant.fields ==> Keyword(defs, check, k, variant.fields[k], i, fuel);
        assert k in node ==> Keyword(defs, check, k, node[k], i, fuel);
      }
    }
  }

  lemma NodeAcceptsVariant(defs: map<string, Json>, check: (string, Json, Json) -> bool,
                           node: map<string, Json>, i: Json, fuel: nat)
    requires Collapsible(node) && Accepts(defs, check, Obj(node), i, fuel) && i != Null
    ensures Accepts(defs, check, Lone(node), i, fuel)
  {
    NullTypeMeaning(defs, check, i, fuel);
    KnownRoles();
    assert Keyword(defs, check, "anyOf", node["anyOf"], i, fuel);
  }

  /** The merge loses exactly the clashing constraints, for any one instance and whatever keyword they
      are; what the node accepts besides null is still accepted. */
  lemma MergeLosesClashes(defs: map<string, Json>, check: (string, Json, Json) -> bool,
                          node: map<string, Json>, i: Json, fuel: nat)
    requires Collapsible(node) && Lone(node).Obj?
    ensures Accepts(defs, check, Obj(Effective(node)), i, fuel) ==>
              (Accepts(defs, check, Obj(node), i, fuel) <==>
               forall k | Clashes(node, Lone(node).fields, k) :: Keyword(defs, check, k, node[k], i, fuel))
    ensures Accepts(defs, check, Obj(node), i, fuel) && i != Null ==> Accepts(defs, check, Obj(Effective(node)), i, fuel)
  {
    if Accepts(defs, check, Obj(node), i, fuel) {
      assert forall k | k in node :: Keyword(defs, check, k, node[k], i, fuel);
      if i != Null {
        NodeAccepts(defs, check, node, i, fuel);
      }
    } else if Accepts(defs, check, Obj(Effective(node)), i, fuel)
              && forall k | Clashes(node, Lone(node).fields, k) :: Keyword(defs, check, k, node[k], i, fuel) {
      MergedAccepts(defs, check, node, i, fuel);
    }
  }

  /** Without clashes one merge drops the null alternative and nothing else. */
  lemma MergeMeaning(defs: map<string, Json>, check: (string, Json, Json) -> bool,
                     node: map<string, Json>, i: Json, fuel: nat)
    requires Collapsible(node) && Lone(node).Obj? && Compatible(node, Lone(node).fields)
    ensures Accepts(defs, check, Obj(Effective(node)), i, fuel) ==> Accepts(defs, check, Obj(node), i, fuel)
    ensures Accepts(defs, check, Obj(node), i, fuel) && i != Null ==> Accepts(defs, check, Obj(Effective(node)), i, fuel)
  {
    hide Effective, Collapsible, Accepts, RoleOf, Keyword;
    MergeLosesClashes(defs, check, node, i, fuel);
  }

  lemma NullTypeMeaning(defs: map<string, Json>, check: (string, Json, Json) -> bool, i: Json, fuel: nat)
    ensures Accepts(defs, check, NULL_TYPE, i, fuel) <==> i == Null
  {
    var node := NULL_TYPE.fields;
    assert forall k | k in node :: k == "type" && node[k] == Str("null");
    assert "type" in node;
    assert !Str("null").Arr?;
    assert Accepts(defs, check, NULL_TYPE, i, fuel) <==> Keyword(defs, check, "type", node["type"], i, fuel);
  }

  /** The rewritten schema accepts nothing the original rejects, and everything null-free it accepts. */
  ghost predicate SchemaKept(defs: map<string, Json>, check: (string, Json, Json) -> bool, schema: Json, i: Json, fuel: nat)
    requires SoundDefs(defs) && Rewritable(schema)
  {
    && (Accepts(CollapseDefs(defs), check, Collapse(schema), i, fuel) ==> Accepts(defs, check, schema, i, fuel))
    && (NullFree(i) && Accepts(defs, check, schema, i, fuel) ==> Accepts(CollapseDefs(defs), check, Collapse(schema), i, fuel))
  }

  ghost predicate KeywordKept(defs: map<string, Json>, check: (string, Json, Json) -> bool,
                              k: string, v: Json, i: Json, fuel: nat)
    requires SoundDefs(defs) && Rewritable(v)
  {
    && (Keyword(CollapseDefs(defs), check, k, Collapse(v), i, fuel) ==> Keyword(defs, check, k, v, i, fuel))
    && (NullFree(i) && Keyword(defs, check, k, v, i, fuel) ==> Keyword(CollapseDefs(defs), check, k, Collapse(v), i, fuel))
  }

  /** The published schema accepts nothing the original rejects, and rejects nothing null-free
      that the original accepts. */
  lemma CollapsePreservesMeaning(defs: map<string, Json>, check: (string, Json, Json) -> bool,
                                 schema: Json, i: Json, fuel: nat)
    requires SoundDefs(defs) && Sound(schema) && Rewritable(schema)
    ensures Accepts(CollapseDefs(defs), check, Collapse(schema), i, fuel) ==> Accepts(defs, check, schema, i, fuel)
    ensures NullFree(i) ==>
              (Accepts(CollapseDefs(defs), check, Collapse(schema), i, fuel) <==> Accepts(defs, check, schema, i, fuel))
  {
    SchemaPreserved(defs, check, schema, i, fuel);
  }

  lemma SchemaPreserved(defs: map<string, Json>, check: (string, Json, Json) -> bool, schema: Json, i: Json, fuel: nat)
    requires SoundDefs(defs) && Sound(schema) && Rewritable(schema)
    ensures SchemaKept(defs, check, schema, i, fuel)
    decreases fuel, schema, 0
  {
    if schema.Obj? {
      var node, merged := schema.fields, Effective(schema.fields);
      MergeShrinks(node);
      forall k | k in merged ensures KeywordKept(defs, check, k, merged[k], i, fuel) {
        KeywordPreserved(defs, check, k, merged[k], i, fuel);
      }
      NodePreserved(defs, check, node, i, fuel);
    }
  }

  function RewrittenMembers(node: map<string, Json>): map<string, Json>
    requires forall k | k in node :: Rewritable(node[k])
  {
    map k | k in node :: Collapse(node[k])
  }

  lemma MembersAgree(defs: map<string, Json>, check: (string, Json, Json) -> bool, node: map<string, Json>, i: Json, fuel: nat)
    requires SoundDefs(defs) && forall k | k in node :: Rewritable(node[k])
    requires forall k | k in node :: KeywordKept(defs, check, k, node[k], i, fuel)
    ensures Accepts(CollapseDefs(defs), check, Obj(RewrittenMembers(node)), i, fuel) ==> Accepts(defs, check, Obj(node), i, fuel)
    ensures NullFree(i) && Accepts(defs, check, Obj(node), i, fuel) ==>
              Accepts(CollapseDefs(defs), check, Obj(RewrittenMembers(node)), i, fuel)
  {
    hide Keyword, Collapse, Accepts, Rewritable;
    SameKeywords(defs, CollapseDefs(defs), check, node, RewrittenMembers(node), i, fuel);
  }

  lemma NodePreserved(defs: map<string, Json>, check: (string, Json, Json) -> bool,
                      node: map<string, Json>, i: Json, fuel: nat)
    requires SoundDefs(defs) && Rewritable(Obj(node))
    requires Collapsible(node) ==> Compatible(node, Lone(node).fields)
    requires forall k | k in Effective(node) :: KeywordKept(defs, check, k, Effective(node)[k], i, fuel)
    ensures SchemaKept(defs, check, Obj(node), i, fuel)
  {
    MergeShrinks(node);
    assert Collapse(Obj(node)) == Obj(RewrittenMembers(Effective(node)));
    assert !Collapsible(node) ==> Effective(node) == node;
    hide Effective, Keyword, Collapse, Accepts, Collapsible, CollapseDefs, Rewritable, SoundDefs, KeywordKept, RewrittenMembers;
    MembersAgree(defs, check, Effective(node), i, fuel);
    if Collapsible(node) {
      MergeMeaning(defs, check, node, i, fuel);
    }
  }

  /** Keyword by keyword agreement is agreement of the whole schema. */
  lemma SameKeywords(defs: map<string, Json>, defs': map<string, Json>, check: (string, Json, Json) -> bool,
                     m: map<string, Json>, m': map<string, Json>, i: Json, fuel: nat)
    requires m.Keys == m'.Keys
    requires forall k | k in m :: Keyword(defs', check, k, m'[k], i, fuel) ==> Keyword(defs, check, k, m[k], i, fuel)
    requires NullFree(i) ==>
               forall k | k in m :: Keyword(defs, check, k, m[k], i, fuel) ==> Keyword(defs', check, k, m'[k], i, fuel)
    ensures Accepts(defs', check, Obj(m'), i, fuel) ==> Accepts(defs, check, Obj(m), i, fuel)
    ensures NullFree(i) && Accepts(defs, check, Obj(m), i, fuel) ==> Accepts(defs', check, Obj(m'), i, fuel)
  {
  }

  lemma KeywordPreserved(defs: map<string, Json>, check: (string, Json, Json) -> bool,
                         k: string, v: Json, i: Json, fuel: nat)
    requires SoundDefs(defs) && SoundKeyword(k, v) && Rewritable(v)
    ensures KeywordKept(defs, check, k, v, i, fuel)
    decreases fuel, v, 2
  {
    hide *;
    match RoleOf(k)
    case AnyOf => VariantsPreserved(defs, check, k, v, i, fuel);
    case AllOf => VariantsPreserved(defs, check, k, v, i, fuel);
    case Items => ItemsPreserved(defs, check, k, v, i, fuel);
    case Properties => PropertiesPreserved(defs, check, k, v, i, fuel);
    case Ref => RefPreserved(defs, check, k, v, i, fuel);
    case _ => AssertionPreserved(defs, check, k, v, i, fuel);
  }

  lemma ItemsPreserved(defs: map<string, Json>, check: (string, Json, Json) -> bool,
                       k: string, v: Json, i: Json, fuel: nat)
    requires SoundDefs(defs) && SoundKeyword(k, v) && Rewritable(v) && RoleOf(k) == Items
    ensures KeywordKept(defs, check, k, v, i, fuel)
    decreases fuel, v, 1
  {
    hide RoleOf, Accepts, Sound, Rewritable, Collapse;
    if i.Arr? {
      forall x | x in i.items { SchemaPreserved(defs, check, v, x, fuel); }
    }
  }

  lemma RefPreserved(defs: map<string, Json>, check: (string, Json, Json) -> bool,
                     k: string, v: Json, i: Json, fuel: nat)
    requires SoundDefs(defs) && SoundKeyword(k, v) && Rewritable(v) && RoleOf(k) == Ref
    ensures KeywordKept(defs, check, k, v, i, fuel)
    decreases fuel, v, 1
  {
    hide RoleOf, Accepts, Sound, Rewritable;
    if v.s in defs && fuel > 0 {
      SchemaPreserved(defs, check, defs[v.s], i, fuel - 1);
    }
  }

  lemma AssertionPreserved(defs: map<string, Json>, check: (string, Json, Json) -> bool,
                           k: string, v: Json, i: Json, fuel: nat)
    requires SoundDefs(defs) && SoundKeyword(k, v) && Rewritable(v) && RoleOf(k) in {Annotation, Type, Required, Other}
    ensures KeywordKept(defs, check, k, v, i, fuel)
    decreases fuel, v, 1
  {
    hide RoleOf, Keyword, Accepts, Collapse, Sound;
    SameEverywhere(defs, CollapseDefs(defs), check, k, v, i, fuel);
    if RoleOf(k) == Annotation {
      AnnotationsHold(defs, check, i, fuel);
      AnnotationsHold(CollapseDefs(defs), check, i, fuel);
    } else {
      AssertionUnchanged(k, v);
    }
  }

  lemma SameEverywhere(defs: map<string, Json>, defs': map<string, Json>, check: (string, Json, Json) -> bool,
                       k: string, v: Json, i: Json, fuel: nat)
    requires RoleOf(k) in {Annotation, Type, Required, Other}
    ensures Keyword(defs, check, k, v, i, fuel) == Keyword(defs', check, k, v, i, fuel)
  {
  }

  lemma AssertionUnchanged(k: string, v: Json)
    requires SoundKeyword(k, v) && RoleOf(k) in {Type, Required, Other}
    ensures Rewritable(v) && Collapse(v) == v
  {
    hide RoleOf;
    PlainUnchanged(v);
  }

  /** Lists of variants that agree one by one agree as `anyOf` and as `allOf`. */
  lemma VariantsAgree(defs: map<string, Json>, defs': map<string, Json>, check: (string, Json, Json) -> bool,
                      k: string, v: Json, v': Json, i: Json, fuel: nat)
    requires RoleOf(k) in {AnyOf, AllOf} && v.Arr? && v'.Arr? && |v.items| == |v'.items|
    requires forall j | 0 <= j < |v.items| :: Accepts(defs', check, v'.items[j], i, fuel) ==> Accepts(defs, check, v.items[j], i, fuel)
    requires NullFree(i) ==>
               forall j | 0 <= j < |v.items| :: Accepts(defs, check, v.items[j], i, fuel) ==> Accepts(defs', check, v'.items[j], i, fuel)
    ensures Keyword(defs', check, k, v', i, fuel) ==> Keyword(defs, check, k, v, i, fuel)
    ensures NullFree(i) && Keyword(defs, check, k, v, i, fuel) ==> Keyword(defs', check, k, v', i, fuel)
  {
    SameMembers(defs, defs', check, v.items, v'.items, i, fuel);
    hide RoleOf, Accepts, NullFree;
  }

  lemma VariantsPreserved(defs: map<string, Json>, check: (string, Json, Json) -> bool,
                          k: string, v: Json, i: Json, fuel: nat)
    requires SoundDefs(defs) && SoundKeyword(k, v) && Rewritable(v) && RoleOf(k) in {AnyOf, AllOf}
    ensures KeywordKept(defs, check, k, v, i, fuel)
    decreases fuel, v, 1
  {
    var v' := Collapse(v);
    assert v.Arr? && |v'.items| == |v.items| && forall j | 0 <= j < |v.items| :: v'.items[j] == Collapse(v.items[j]);
    assert forall x | x in v.items :: Sound(x) && Rewritable(x);
    hide RoleOf, Accepts, Sound, Rewritable, CollapseDefs, Collapse, SoundDefs, Keyword, SoundKeyword;
    forall j | 0 <= j < |v.items| ensures SchemaKept(defs, check, v.items[j], i, fuel) {
      assert v.items[j] in v.items;
      SchemaPreserved(defs, check, v.items[j], i, fuel);
    }
    VariantsAgree(defs, CollapseDefs(defs), check, k, v, v', i, fuel);
  }

  lemma PropertiesPreserved(defs: map<string, Json>, check: (string, Json, Json) -> bool,
                            k: string, v: Json, i: Json, fuel: nat)
    requires SoundDefs(defs) && SoundKeyword(k, v) && Rewritable(v) && RoleOf(k) == Properties
    ensures KeywordKept(defs, check, k, v, i, fuel)
    decreases fuel, v, 1
  {
    assert v.Obj? && !Collapsible(v.fields) && Effective(v.fields) == v.fields;
    hide Accepts, Sound, Rewritable, CollapseDefs, Effective, Collapsible;
    if i.Obj? {
      MembersPreserved(defs, check, v, i, fuel);
    }
    hide RoleOf;
  }

  lemma MembersPreserved(defs: map<string, Json>, check: (string, Json, Json) -> bool, v: Json, i: Json, fuel: nat)
    requires SoundDefs(defs) && v.Obj? && i.Obj? && !Collapsible(v.fields) && Rewritable(v)
    requires forall p | p in v.fields :: Sound(v.fields[p])
    ensures Collapse(v).fields.Keys == v.fields.Keys
    ensures forall p | p in v.fields ::
              && Rewritable(v.fields[p]) && Collapse(v).fields[p] == Collapse(v.fields[p])
              && (p in i.fields ==> SchemaKept(defs, check, v.fields[p], i.fields[p], fuel))
    decreases fuel, v, 0
  {
    assert Effective(v.fields) == v.fields;
    assert Collapse(v).fields.Keys == v.fields.Keys;
    hide Accepts, Effective, Collapsible, CollapseDefs;
    forall p | p in v.fields
      ensures Rewritable(v.fields[p]) && Collapse(v).fields[p] == Collapse(v.fields[p])
      ensures p in i.fields ==> SchemaKept(defs, check, v.fields[p], i.fields[p], fuel)
    {
      SoundRewritable(v.fields[p]);
      if p in i.fields {
        SchemaPreserved(defs, check, v.fields[p], i.fields[p], fuel);
      }
    }
  }

  /** Pointwise related variant lists agree on "some variant accepts" and "all variants accept". */
  lemma SameMembers(defs: map<string, Json>, defs': map<string, Json>, check: (string, Json, Json) -> bool,
                    xs: seq<Json>, ys: seq<Json>, i: Json, fuel: nat)
    requires |xs| == |ys|
    requires forall j | 0 <= j < |xs| :: Accepts(defs', check, ys[j], i, fuel) ==> Accepts(defs, check, xs[j], i, fuel)
    requires NullFree(i) ==>
               forall j | 0 <= j < |xs| :: Accepts(defs, check, xs[j], i, fuel) ==> Accepts(defs', check, ys[j], i, fuel)
    ensures (exists y | y in ys :: Accepts(defs', check, y, i, fuel)) ==> (exists x | x in xs :: Accepts(defs, check, x, i, fuel))
    ensures (forall y | y in ys :: Accepts(defs', check, y, i, fuel)) ==> (forall x | x in xs :: Accepts(defs, check, x, i, fuel))
    ensures NullFree(i) && (exists x | x in xs :: Accepts(defs, check, x, i, fuel)) ==>
              exists y | y in ys :: Accepts(defs', check, y, i, fuel)
    ensures NullFree(i) && (forall x | x in xs :: Accepts(defs, check, x, i, fuel)) ==>
              forall y | y in ys :: Accepts(defs', check, y, i, fuel)
  {
  }

  lemma NullablePair(v: Json)
    requires v != NULL_TYPE
    ensures NULL_TYPE in [v, NULL_TYPE] && NonNull([v, NULL_TYPE]) == [v]
  {
    assert [v, NULL_TYPE][1..] == [NULL_TYPE] && [NULL_TYPE][1..] == [];
    assert NonNull([NULL_TYPE]) == [];
  }

  const TEXT: Json := Obj(map["type" := Str("string")])

  lemma TextIsNotNull()
    ensures TEXT != NULL_TYPE && Plain(TEXT) && !BecomesNull(TEXT)
  {
    assert TEXT.fields["type"] != NULL_TYPE.fields["type"];
  }

  const SIBLING: Json := Obj(map["anyOf" := Arr([TEXT, NULL_TYPE]), "type" := Str("integer")])

  lemma SiblingCollapses()
    ensures Rewritable(SIBLING) && Collapse(SIBLING) == TEXT
  {
    TextIsNotNull();
    NullablePair(TEXT);
    assert Collapsible(SIBLING.fields) && Lone(SIBLING.fields) == TEXT;
    assert Effective(SIBLING.fields) == TEXT.fields;
    PlainUnchanged(TEXT);
    assert Collapse(SIBLING).fields == Collapse(TEXT).fields;
  }

  /** Outside `Compatible` the pass can change meaning: a sibling constraint the variant restates
      differently is lost. */
  lemma SiblingConstraintLost(check: (string, Json, Json) -> bool)
    ensures Rewritable(SIBLING)
    ensures !Accepts(map[], check, SIBLING, Str(""), 0) && Accepts(map[], check, Collapse(SIBLING), Str(""), 0)
  {
    SiblingCollapses();
    hide Collapse, Rewritable;
    assert !Keyword(map[], check, "type", SIBLING.fields["type"], Str(""), 0);
  }

  /** A meaning of the other keywords under which exactly this constraint fails. */
  function Telltale(k: string, v: Json): (string, Json, Json) -> bool {
    (keyword: string, value: Json, i: Json) => !(keyword == k && value == v)
  }

  /** The merge step changes no answer but that for null, whatever the other keywords mean. */
  ghost predicate MergeKeeps(defs: map<string, Json>, node: map<string, Json>)
    requires Mergeable(node)
  {
    forall check, i, fuel: nat ::
      && (Accepts(defs, check, Obj(Effective(node)), i, fuel) ==> Accepts(defs, check, Obj(node), i, fuel))
      && (Accepts(defs, check, Obj(node), i, fuel) && i != Null ==> Accepts(defs, check, Obj(Effective(node)), i, fuel))
  }

  /** Every lost constraint shows: an instance the merged dict accepts is rejected by the node. */
  lemma ClashChangesMeaning(defs: map<string, Json>, node: map<string, Json>, k: string, i: Json, fuel: nat)
    requires Collapsible(node) && Lone(node).Obj? && Clashes(node, Lone(node).fields, k) && RoleOf(k) == Other
    requires Accepts(defs, Telltale(k, node[k]), Obj(Effective(node)), i, fuel)
    ensures !Accepts(defs, Telltale(k, node[k]), Obj(node), i, fuel)
  {
    TelltaleFails(defs, k, node[k], i, fuel);
    hide Effective, Collapsible, RoleOf;
  }

  /** One such instance is enough. */
  lemma LostInstance(defs: map<string, Json>, check: (string, Json, Json) -> bool, node: map<string, Json>,
                     k: string, i: Json, fuel: nat)
    requires Collapsible(node) && Lone(node).Obj? && Clashes(node, Lone(node).fields, k)
    requires Accepts(defs, check, Obj(Effective(node)), i, fuel) && !Keyword(defs, check, k, node[k], i, fuel)
    ensures !MergeKeeps(defs, node)
  {
    assert !Accepts(defs, check, Obj(node), i, fuel);
    hide Effective, Collapsible, Accepts, RoleOf, Keyword;
  }

  lemma NothingLost(defs: map<string, Json>, node: map<string, Json>)
    requires Collapsible(node) && Lone(node).Obj?
    requires forall check, i, fuel: nat, k | Clashes(node, Lone(node).fields, k) && Accepts(defs, check, Obj(Effective(node)), i, fuel) ::
               Keyword(defs, check, k, node[k], i, fuel)
    ensures MergeKeeps(defs, node)
  {
    hide Effective, Collapsible, Accepts, RoleOf, Keyword;
    forall check, i, fuel: nat
      ensures Accepts(defs, check, Obj(Effective(node)), i, fuel) ==> Accepts(defs, check, Obj(node), i, fuel)
      ensures Accepts(defs, check, Obj(node), i, fuel) && i != Null ==> Accepts(defs, check, Obj(Effective(node)), i, fuel)
    {
      MergeLosesClashes(defs, check, node, i, fuel);
    }
  }

  /** The exact condition for any keywords: everything the merged dict accepts meets the clashing
      constraints. */
  lemma MergeKeepsIffImplied(defs: map<string, Json>, node: map<string, Json>)
    requires Collapsible(node) && Lone(node).Obj?
    ensures MergeKeeps(defs, node) <==>
            forall check, i, fuel: nat, k | Clashes(node, Lone(node).fields, k) && Accepts(defs, check, Obj(Effective(node)), i, fuel) ::
              Keyword(defs, check, k, node[k], i, fuel)
  {
    hide Effective, Collapsible, Accepts, RoleOf, Keyword, MergeKeeps;
    if check, i, fuel: nat, k :| Clashes(node, Lone(node).fields, k) && Accepts(defs, check, Obj(Effective(node)), i, fuel)
                                 && !Keyword(defs, check, k, node[k], i, fuel) {
      LostInstance(defs, check, node, k, i, fuel);
    } else {
      NothingLost(defs, node);
    }
  }

  /** What `type: v` asks of an instance. */
  predicate TypeMeets(v: Json, i: Json) {
    if v.Arr? then exists t | t in v.items :: HasType(t, i) else HasType(v, i)
  }

  lemma TypeKeyword(defs: map<string, Json>, check: (string, Json, Json) -> bool, v: Json, i: Json, fuel: nat)
    ensures Keyword(defs, check, "type", v, i, fuel) <==> TypeMeets(v, i)
    ensures forall k :: RoleOf(k) == Type ==> k == "type"
  {
    KnownRoles();
  }

  /** Every instance of the variant's type is one of the node's. */
  ghost predicate TypeImplied(node: map<string, Json>, variant: map<string, Json>)
    requires "type" in node && "type" in variant
  {
    forall j | TypeMeets(variant["type"], j) :: TypeMeets(node["type"], j)
  }

  /** The clashes are of the open vocabulary or of `type`, and the merged dict accepts something that
      tells: an instance under each telltale, and one outside the node's type where the types allow it. */
  ghost predicate Telling(defs: map<string, Json>, node: map<string, Json>)
    requires Collapsible(node) && Lone(node).Obj?
  {
    forall k | Clashes(node, Lone(node).fields, k) ::
      || (RoleOf(k) == Other && exists i, fuel: nat :: Accepts(defs, Telltale(k, node[k]), Obj(Effective(node)), i, fuel))
      || (k == "type" &&
          (TypeImplied(node, Lone(node).fields) ||
           exists check, i, fuel: nat :: Accepts(defs, check, Obj(Effective(node)), i, fuel) && !TypeMeets(node["type"], i)))
  }

  lemma TellingClash(defs: map<string, Json>, node: map<string, Json>, k: string)
    requires Collapsible(node) && Lone(node).Obj? && Telling(defs, node) && Clashes(node, Lone(node).fields, k)
    requires k == "type" ==> !TypeImplied(node, Lone(node).fields)
    ensures !MergeKeeps(defs, node)
  {
    hide Effective, Collapsible, Accepts, Keyword, TypeMeets, RoleOf, MergeKeeps;
    if k == "type" {
      KnownRoles();
      var check, i, fuel: nat :| Accepts(defs, check, Obj(Effective(node)), i, fuel) && !TypeMeets(node["type"], i);
      TypeKeyword(defs, check, node["type"], i, fuel);
      LostInstance(defs, check, node, k, i, fuel);
    } else {
      var i, fuel: nat :| Accepts(defs, Telltale(k, node[k]), Obj(Effective(node)), i, fuel);
      TelltaleFails(defs, k, node[k], i, fuel);
      LostInstance(defs, Telltale(k, node[k]), node, k, i, fuel);
    }
  }

  lemma TelltaleFails(defs: map<string, Json>, k: string, v: Json, i: Json, fuel: nat)
    requires RoleOf(k) == Other
    ensures !Keyword(defs, Telltale(k, v), k, v, i, fuel)
  {
    hide RoleOf;
  }

  lemma MergedMeetsType(defs: map<string, Json>, check: (string, Json, Json) -> bool, node: map<string, Json>, i: Json, fuel: nat)
    requires Collapsible(node) && Lone(node).Obj? && Clashes(node, Lone(node).fields, "type")
    requires Accepts(defs, check, Obj(Effective(node)), i, fuel)
    ensures TypeMeets(Lone(node).fields["type"], i)
  {
    MergedVariant(defs, check, node, i, fuel);
    TypeKeyword(defs, check, Lone(node).fields["type"], i, fuel);
    hide Keyword, Effective, Collapsible, TypeMeets;
  }

  /** The exact condition on the schema: the merge keeps meaning exactly when nothing clashes but `type`,
      and there the variant's type lies within the node's. */
  lemma MergeKeepsIff(defs: map<string, Json>, node: map<string, Json>)
    requires Collapsible(node) && Lone(node).Obj? && Telling(defs, node)
    ensures MergeKeeps(defs, node) <==>
            forall k | Clashes(node, Lone(node).fields, k) :: k == "type" && TypeImplied(node, Lone(node).fields)
  {
    hide Effective, Collapsible, Accepts, Keyword, TypeMeets, Telling, MergeKeeps, RoleOf;
    MergeKeepsIffImplied(defs, node);
    if forall k | Clashes(node, Lone(node).fields, k) :: k == "type" && TypeImplied(node, Lone(node).fields) {
      forall check, i, fuel: nat, k | Clashes(node, Lone(node).fields, k) && Accepts(defs, check, Obj(Effective(node)), i, fuel)
        ensures Keyword(defs, check, k, node[k], i, fuel)
      {
        MergedMeetsType(defs, check, node, i, fuel);
        TypeKeyword(defs, check, node["type"], i, fuel);
      }
    } else {
      var k :| Clashes(node, Lone(node).fields, k) && !(k == "type" && TypeImplied(node, Lone(node).fields));
      TellingClash(defs, node, k);
    }
  }

  lemma SiblingNode()
    ensures var node := SIBLING.fields;
            && Collapsible(node) && Lone(node) == TEXT && Effective(node) == TEXT.fields
            && Clashes(node, TEXT.fields, "type") && forall k | Clashes(node, TEXT.fields, k) :: k == "type"
  {
    TextIsNotNull();
    NullablePair(TEXT);
    KnownRoles();
  }

  lemma TextOutsideInteger(check: (string, Json, Json) -> bool)
    ensures Accepts(map[], check, TEXT, Str(""), 0) && !TypeMeets(SIBLING.fields["type"], Str(""))
    ensures TypeMeets(TEXT.fields["type"], Str(""))
  {
    KnownRoles();
  }

  /** The exhibited schema lies within this condition, and fails it. */
  lemma SiblingDecided(check: (string, Json, Json) -> bool)
    ensures Collapsible(SIBLING.fields) && Lone(SIBLING.fields).Obj? && Telling(map[], SIBLING.fields)
    ensures !MergeKeeps(map[], SIBLING.fields)
  {
    hide Collapsible, Effective, NonNull, Accepts, Keyword, TypeMeets, MergeKeeps, RoleOf, Clashes, Compatible;
    SiblingNode();
    TextOutsideInteger(check);
    assert Obj(Effective(SIBLING.fields)) == TEXT;
    TellingClash(map[], SIBLING.fields, "type");
  }

  // ---------------------------------------------------------------- the published components

  function Member(j: Json, name: string): Json {
    if j.Obj? && name in j.fields then j.fields[name] else Null
  }

  lemma MemberRewritten(j: Json, name: string)
    requires Rewritable(j) && j.Obj? && !Collapsible(j.fields) && name in j.fields
    ensures Rewritable(j.fields[name]) && Member(Collapse(j), name) == Collapse(j.fields[name])
  {
    assert name in Effective(j.fields) && Rewritable(Effective(j.fields)[name]);
  }

  const SCHEMAS: string := "#/components/schemas/"

  /** A document's schemas under the references that name them. */
  function References(schemas: map<string, Json>): map<string, Json> {
    map r | r in (set name | name in schemas :: SCHEMAS + name) && SCHEMAS <= r && r[|SCHEMAS|..] in schemas ::
      schemas[r[|SCHEMAS|..]]
  }

  lemma ReferenceTo(schemas: map<string, Json>, name: string)
    ensures SCHEMAS + name in References(schemas) <==> name in schemas
    ensures name in schemas ==> References(schemas)[SCHEMAS + name] == schemas[name]
  {
    assert (SCHEMAS + name)[|SCHEMAS|..] == name;
  }

  lemma NamedByReference(schemas: map<string, Json>, r: string) returns (name: string)
    requires r in References(schemas)
    ensures name in schemas && r == SCHEMAS + name
  {
    name := r[|SCHEMAS|..];
  }

  lemma ReferencesRewritten(schemas: map<string, Json>)
    requires forall name | name in schemas :: Rewritable(schemas[name])
    ensures forall r | r in References(schemas) :: Rewritable(References(schemas)[r])
    ensures References(CollapseDefs(schemas)) == CollapseDefs(References(schemas))
  {
    hide Rewritable, Collapse, References;
    forall r | r in References(schemas) ensures Rewritable(References(schemas)[r]) {
      var name := NamedByReference(schemas, r);
      ReferenceTo(schemas, name);
    }
    var defs, schemas' := CollapseDefs(References(schemas)), CollapseDefs(schemas);
    forall r ensures (r in References(schemas') <==> r in defs) && (r in defs ==> References(schemas')[r] == defs[r]) {
      if r in References(schemas') {
        var name := NamedByReference(schemas', r);
        ReferenceTo(schemas, name);
        ReferenceTo(schemas', name);
      } else if r in References(schemas) {
        var name := NamedByReference(schemas, r);
        ReferenceTo(schemas', name);
      }
    }
  }

  predicate HasSchemas(doc: Json, schemas: map<string, Json>) {
    && doc.Obj? && Member(Member(doc, "components"), "schemas") == Obj(schemas)
    && !Collapsible(doc.fields) && !Collapsible(Member(doc, "components").fields) && !Collapsible(schemas)
  }

  lemma SchemasRewritten(doc: Json, schemas: map<string, Json>)
    requires Rewritable(doc) && HasSchemas(doc, schemas)
    ensures forall name | name in schemas :: Rewritable(schemas[name])
    ensures Member(Member(Collapse(doc), "components"), "schemas") == Obj(CollapseDefs(schemas))
  {
    var components := Member(doc, "components");
    MemberRewritten(doc, "components");
    MemberRewritten(components, "schemas");
    hide Member, Collapsible;
    forall name | name in schemas { MemberRewritten(Obj(schemas), name); }
  }

  /** The definitions `$ref` resolves against are rewritten one by one by the pass over the document. */
  lemma ComponentsRewritten(doc: Json, schemas: map<string, Json>)
    requires Rewritable(doc) && HasSchemas(doc, schemas)
    ensures forall name | name in schemas :: Rewritable(schemas[name])
    ensures Member(Member(Collapse(doc), "components"), "schemas") == Obj(CollapseDefs(schemas))
    ensures forall r | r in References(schemas) :: Rewritable(References(schemas)[r])
    ensures References(CollapseDefs(schemas)) == CollapseDefs(References(schemas))
  {
    hide *;
    SchemasRewritten(doc, schemas);
    ReferencesRewritten(schemas);
  }

  lemma SoundReferences(schemas: map<string, Json>)
    requires forall name | name in schemas :: Sound(schemas[name]) && Rewritable(schemas[name])
    ensures SoundDefs(References(schemas))
  {
    hide Sound, Rewritable, References;
    forall r | r in References(schemas) ensures Sound(References(schemas)[r]) && Rewritable(References(schemas)[r]) {
      var name := NamedByReference(schemas, r);
      ReferenceTo(schemas, name);
    }
  }

  /** A place in a document: object members by name, list items by number. */
  datatype Place = Field(name: string) | Item(index: nat)

  function Under(j: Json, path: seq<Place>): Json {
    if path == [] then j
    else
      match path[0]
      case Field(name) => if j.Obj? && name in j.fields then Under(j.fields[name], path[1..]) else Null
      case Item(index) => if j.Arr? && index < |j.items| then Under(j.items[index], path[1..]) else Null
  }

  /** The path is there, and none of the dicts on it is a null-anyOf. */
  predicate Leads(j: Json, path: seq<Place>) {
    path == [] ||
    match path[0]
    case Field(name) => j.Obj? && !Collapsible(j.fields) && name in j.fields && Leads(j.fields[name], path[1..])
    case Item(index) => j.Arr? && index < |j.items| && Leads(j.items[index], path[1..])
  }

  lemma {:induction false} PathRewritten(j: Json, path: seq<Place>)
    requires Rewritable(j) && Leads(j, path)
    ensures Rewritable(Under(j, path)) && Under(Collapse(j), path) == Collapse(Under(j, path))
    decreases |path|
  {
    if path == [] {
    } else {
      match path[0]
      case Field(name) =>
        MemberRewritten(j, name);
        assert Collapse(j).Obj? && name in Collapse(j).fields;
        PathRewritten(j.fields[name], path[1..]);
      case Item(index) =>
        assert j.items[index] in j.items;
        PathRewritten(j.items[index], path[1..]);
    }
  }

  /** A schema anywhere in the document, under `paths` or among the components, keeps its meaning, its
      references resolved in the same document before and after the pass. */
  lemma DocumentKeepsMeaning(doc: Json, schemas: map<string, Json>, path: seq<Place>,
                             check: (string, Json, Json) -> bool, i: Json, fuel: nat)
    requires Rewritable(doc) && HasSchemas(doc, schemas) && forall n | n in schemas :: Sound(schemas[n])
    requires Leads(doc, path) && Sound(Under(doc, path))
    ensures var published, schema, after := Member(Member(Collapse(doc), "components"), "schemas"), Under(doc, path), Under(Collapse(doc), path);
            && published.Obj?
            && (Accepts(References(published.fields), check, after, i, fuel) ==> Accepts(References(schemas), check, schema, i, fuel))
            && (NullFree(i) ==>
                (Accepts(References(published.fields), check, after, i, fuel) <==>
                 Accepts(References(schemas), check, schema, i, fuel)))
  {
    hide Sound, Rewritable, References, Accepts, Collapse, HasSchemas, Leads, Under;
    ComponentsRewritten(doc, schemas);
    SoundReferences(schemas);
    PathRewritten(doc, path);
    CollapsePreservesMeaning(References(schemas), check, Under(doc, path), i, fuel);
  }

  // ---------------------------------------------------------------- what a second pass does

  /** The pass turns this variant into the null variant. */
  predicate BecomesNull(v: Json) {
    v.Obj? && Mergeable(v.fields) && Effective(v.fields) == NULL_TYPE.fields
  }

  function Remaining(variants: seq<Json>): seq<Json> {
    if variants == [] then []
    else if BecomesNull(variants[0]) then Remaining(variants[1..])
    else [variants[0]] + Remaining(variants[1..])
  }

  /** After its variants are rewritten, this dict is a null-anyOf of two. */
  predicate Leftover(e: map<string, Json>) {
    && "anyOf" in e
    && e["anyOf"].Arr?
    && (exists v | v in e["anyOf"].items :: BecomesNull(v))
    && |Remaining(e["anyOf"].items)| == 1
  }

  /** No dict the pass recurses into is left a null-anyOf. */
  predicate Settles(j: Json)
    requires Rewritable(j)
  {
    match j
    case Obj(node) =>
      !Leftover(Effective(node)) && (
        MergeShrinks(node);
        forall k | k in Effective(node) :: Settles(Effective(node)[k]))
    case Arr(items) => forall x | x in items :: Settles(x)
    case _ => true
  }

  lemma BecomesNullIff(v: Json)
    requires Rewritable(v)
    ensures Collapse(v) == NULL_TYPE <==> BecomesNull(v)
  {
  }

  lemma {:induction false} RemainingCount(xs: seq<Json>, ys: seq<Json>)
    requires |xs| == |ys| && forall j | 0 <= j < |xs| :: Rewritable(xs[j]) && ys[j] == Collapse(xs[j])
    ensures |NonNull(ys)| == |Remaining(xs)|
    ensures NULL_TYPE in ys <==> exists x | x in xs :: BecomesNull(x)
  {
    if xs == [] {
    } else {
      BecomesNullIff(xs[0]);
      RemainingCount(xs[1..], ys[1..]);
      assert forall x :: x in xs <==> x == xs[0] || x in xs[1..];
      assert forall y :: y in ys <==> y == ys[0] || y in ys[1..];
    }
  }

  /** No null-anyOf of two is left exactly when the input settles. */
  lemma SettlesIffPlain(j: Json)
    requires Rewritable(j)
    ensures Settles(j) <==> Plain(Collapse(j))
  {
    match j
    case Obj(node) =>
      var e, r := Effective(node), Collapse(j).fields;
      MergeShrinks(node);
      assert r.Keys == e.Keys;
      forall k | k in e ensures Settles(e[k]) <==> Plain(r[k]) {
        SettlesIffPlain(e[k]);
      }
      assert Leftover(e) <==> Collapsible(r) by {
        if "anyOf" in e && e["anyOf"].Arr? {
          RemainingCount(e["anyOf"].items, r["anyOf"].items);
        } else if "anyOf" in e {
          assert !r["anyOf"].Arr?;
        }
      }
      assert Plain(Collapse(j)) <==> !Collapsible(r) && forall k | k in e :: Plain(r[k]);
    case Arr(items) =>
      var items' := Collapse(j).items;
      forall i | 0 <= i < |items| ensures Settles(items[i]) <==> Plain(items'[i]) {
        assert items[i] in items;
        SettlesIffPlain(items[i]);
      }
      if Settles(j) {
        assert forall y | y in items' :: Plain(y);
      }
      if Plain(Collapse(j)) {
        forall x | x in items ensures Settles(x) {
          var i :| 0 <= i < |items| && items[i] == x;
          assert items'[i] in items';
        }
      }
    case _ =>
  }

  /** Nesting depth at most n. */
  predicate Within(j: Json, n: nat)
    decreases j
  {
    match j
    case Obj(node) => n > 0 && forall k | k in node :: Within(node[k], n - 1)
    case Arr(items) => n > 0 && forall x | x in items :: Within(x, n - 1)
    case _ => true
  }

  lemma WithinGrows(j: Json, n: nat, m: nat)
    requires Within(j, n) && n <= m
    ensures Within(j, m)
    decreases j
  {
  }

  lemma SomeDepth(j: Json) returns (n: nat)
    ensures Within(j, n)
    decreases j
  {
    n := 1;
    match j
    case Obj(node) =>
      var keys := node.Keys;
      while keys != {}
        invariant keys <= node.Keys && n > 0
        invariant forall k | k in node && k !in keys :: Within(node[k], n - 1)
      {
        var k :| k in keys;
        var d := SomeDepth(node[k]);
        var n' := if d + 1 > n then d + 1 else n;
        WithinGrows(node[k], d, n' - 1);
        forall k' | k' in node && k' !in keys { WithinGrows(node[k'], n - 1, n' - 1); }
        n, keys := n', keys - {k};
      }
    case Arr(items) =>
      for i := 0 to |items|
        invariant n > 0 && forall x | x in items[..i] :: Within(x, n - 1)
      {
        var d := SomeDepth(items[i]);
        var n' := if d + 1 > n then d + 1 else n;
        WithinGrows(items[i], d, n' - 1);
        forall x | x in items[..i] { WithinGrows(x, n - 1, n' - 1); }
        assert items[..i + 1] == items[..i] + [items[i]];
        n := n';
      }
      assert items[..|items|] == items;
    case _ =>
  }

  /** The depth bound of a document survives the merge step, hence the whole pass. */
  lemma CollapseKeepsDepth(j: Json, n: nat)
    requires Rewritable(j) && Within(j, n)
    ensures Within(Collapse(j), n)
    decreases j
  {
    match j
    case Obj(node) =>
      MergeShrinks(node);
      forall k | k in Effective(node) ensures Within(Collapse(Effective(node)[k]), n - 1) {
        if Collapsible(node) && k in Lone(node).fields && Effective(node)[k] == Lone(node).fields[k] {
          assert Within(node["anyOf"], n - 1) && Within(Lone(node), n - 2);
          WithinGrows(Lone(node).fields[k], n - 3, n - 1);
        }
        CollapseKeepsDepth(Effective(node)[k], n - 1);
      }
    case Arr(items) =>
      forall i | 0 <= i < |items| ensures Within(Collapse(items[i]), n - 1) {
        assert items[i] in items;
        CollapseKeepsDepth(items[i], n - 1);
      }
    case _ =>
  }

  /** An anyOf list is never the rewritten anyOf list of its own variant: it is deeper. */
  lemma {:induction false} NotOwnVariant(node: map<string, Json>, n: nat)
    requires Collapsible(node) && Lone(node).Obj? && "anyOf" in Lone(node).fields
    requires Rewritable(Lone(node).fields["anyOf"]) && node["anyOf"] == Collapse(Lone(node).fields["anyOf"])
    ensures !Within(node["anyOf"], n)
  {
    if !Within(node["anyOf"], n) {
    } else {
      assert Within(Lone(node), n - 1);
      CollapseKeepsDepth(Lone(node).fields["anyOf"], n - 2);
      NotOwnVariant(node, n - 2);
    }
  }

  /** The pass changes every document it has something to do in. */
  lemma UnchangedIffPlain(j: Json)
    ensures Publish(j) == Published(j) <==> Plain(j)
  {
    if Plain(j) {
      PlainUnchanged(j);
    }
    if Publish(j) == Published(j) {
      UnchangedIsPlain(j);
    }
  }

  lemma UnchangedIsPlain(j: Json)
    requires Rewritable(j) && Collapse(j) == j
    ensures Plain(j)
  {
    match j
    case Obj(node) =>
      MergeShrinks(node);
      assert Collapse(j).fields.Keys == Effective(node).Keys;
      if Collapsible(node) {
        assert "anyOf" in Effective(node) && "anyOf" in Lone(node).fields;
        assert Effective(node)["anyOf"] == Lone(node).fields["anyOf"];
        var n := SomeDepth(node["anyOf"]);
        NotOwnVariant(node, n);
        assert false;
      }
      forall k | k in node ensures Plain(node[k]) {
        assert Collapse(node[k]) == Collapse(j).fields[k];
        UnchangedIsPlain(node[k]);
      }
    case Arr(items) =>
      forall x | x in items ensures Plain(x) {
        var i :| 0 <= i < |items| && items[i] == x;
        assert Collapse(j).items[i] == Collapse(items[i]);
        UnchangedIsPlain(x);
      }
    case _ =>
  }

  /** A second pass publishes the same document exactly when the input settles. */
  lemma SecondPassIdleIff(j: Json)
    requires Rewritable(j)
    ensures Publish(Collapse(j)) == Published(Collapse(j)) <==> Settles(j)
  {
    SettlesIffPlain(j);
    UnchangedIffPlain(Collapse(j));
  }

  /** No lone variant is itself rewritten away, and no variant but the null one becomes null. */
  predicate Flat(j: Json) {
    match j
    case Obj(node) =>
      && (Collapsible(node) ==> Lone(node).Obj? && !Collapsible(Lone(node).fields))
      && ("anyOf" in node && node["anyOf"].Arr? ==>
            forall v | v in node["anyOf"].items :: BecomesNull(v) ==> v == NULL_TYPE)
      && forall k | k in node :: Flat(node[k])
    case Arr(items) => forall x | x in items :: Flat(x)
    case _ => true
  }

  lemma {:induction false} RemainingIsNonNull(variants: seq<Json>)
    requires forall v | v in variants :: BecomesNull(v) ==> v == NULL_TYPE
    ensures Remaining(variants) == NonNull(variants)
  {
    if variants == [] {
    } else {
      assert Effective(NULL_TYPE.fields) == NULL_TYPE.fields;
      RemainingIsNonNull(variants[1..]);
    }
  }

  lemma FlatNotLeftover(node: map<string, Json>)
    requires !Collapsible(node)
    requires "anyOf" in node && node["anyOf"].Arr? ==>
               forall v | v in node["anyOf"].items :: BecomesNull(v) ==> v == NULL_TYPE
    ensures !Leftover(node)
  {
    if "anyOf" in node && node["anyOf"].Arr? {
      RemainingIsNonNull(node["anyOf"].items);
    }
  }

  lemma FlatEffective(node: map<string, Json>)
    requires Flat(Obj(node)) && Mergeable(node)
    ensures !Leftover(Effective(node)) && forall k | k in Effective(node) :: Flat(Effective(node)[k])
  {
    var e := Effective(node);
    if Collapsible(node) {
      var variant := Lone(node);
      assert Flat(node["anyOf"]) && Flat(variant);
      FlatNotLeftover(variant.fields);
      assert "anyOf" in e ==> "anyOf" in variant.fields && e["anyOf"] == variant.fields["anyOf"];
    } else {
      FlatNotLeftover(node);
    }
  }

  lemma FlatSettles(j: Json)
    requires Rewritable(j) && Flat(j)
    ensures Settles(j)
  {
    match j
    case Obj(node) =>
      MergeShrinks(node);
      FlatEffective(node);
      hide Leftover, Effective, Collapsible;
      forall k | k in Effective(node) ensures Settles(Effective(node)[k]) {
        FlatSettles(Effective(node)[k]);
      }
    case Arr(items) =>
      forall x | x in items { FlatSettles(x); }
    case _ =>
  }

  const ANYTHING: Json := Obj(map[])
  const INNER: Json := Obj(map["anyOf" := Arr([ANYTHING, NULL_TYPE]), "type" := Str("null")])
  const OUTER: Json := Obj(map["anyOf" := Arr([INNER, TEXT, NULL_TYPE])])

  lemma InnerBecomesNull()
    ensures INNER != NULL_TYPE && Collapsible(INNER.fields) && Lone(INNER.fields) == ANYTHING
    ensures BecomesNull(INNER) && Rewritable(INNER)
  {
    assert "type" in NULL_TYPE.fields && "anyOf" in INNER.fields && "anyOf" !in NULL_TYPE.fields;
    NullablePair(ANYTHING);
    assert Lone(INNER.fields) == ANYTHING;
    assert Effective(INNER.fields) == NULL_TYPE.fields;
  }

  lemma OuterKeepsTwo()
    ensures !Collapsible(OUTER.fields) && Leftover(OUTER.fields)
  {
    InnerBecomesNull();
    TextIsNotNull();
    NullablePair(TEXT);
    var variants := OUTER.fields["anyOf"].items;
    assert variants[1..] == [TEXT, NULL_TYPE] && [TEXT, NULL_TYPE][1..] == [NULL_TYPE] && [NULL_TYPE][1..] == [];
    assert NonNull(variants) == [INNER, TEXT];
    assert BecomesNull(NULL_TYPE);
    assert Remaining([NULL_TYPE]) == [];
    assert Remaining([TEXT, NULL_TYPE]) == [TEXT];
    assert INNER in variants;
  }

  lemma OuterVariantsRewritable()
    ensures Rewritable(OUTER.fields["anyOf"])
  {
    InnerBecomesNull();
    TextIsNotNull();
    PlainUnchanged(TEXT);
    PlainUnchanged(NULL_TYPE);
    hide BecomesNull, Plain, Collapse, Effective, Collapsible;
    assert forall x | x in OUTER.fields["anyOf"].items :: x == INNER || x == TEXT || x == NULL_TYPE;
  }

  /** A dict with one rewritable member that the pass leaves as a null-anyOf of two. */
  lemma LeftoverUnsettled(node: map<string, Json>)
    requires !Collapsible(node) && Leftover(node) && forall k | k in node :: Rewritable(node[k])
    ensures Rewritable(Obj(node)) && !Settles(Obj(node))
  {
    assert Effective(node) == node;
    hide Leftover, Collapse, Effective, Collapsible;
  }

  lemma OuterUnsettled()
    ensures Rewritable(OUTER) && !Settles(OUTER)
  {
    hide Leftover, Collapsible, Rewritable, Settles;
    OuterKeepsTwo();
    OuterVariantsRewritable();
    LeftoverUnsettled(OUTER.fields);
  }

  /** Forbidding nested null-anyOfs is not enough: `anyOf: [{}, null]` beside `type: "null"` turns
      into the null variant and makes its parent collapsible. */
  lemma NestingProvisoIsNotEnough()
    ensures !Collapsible(OUTER.fields) && Collapsible(INNER.fields) && Lone(INNER.fields) == ANYTHING
    ensures Rewritable(OUTER) && Publish(Collapse(OUTER)) != Published(Collapse(OUTER))
  {
    hide *;
    InnerBecomesNull();
    OuterKeepsTwo();
    OuterUnsettled();
    SecondPassIdleIff(OUTER);
  }
}
