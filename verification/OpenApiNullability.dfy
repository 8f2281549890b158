/**
 backend/app/openapi_document.py: dropping the null variant from the schemas of query parameters,
 and when that leaves the meaning of the schema for the values a query can carry.
 */
module OpenApiNullability {
  import opened Wrappers
  import opened Json

  predicate IsNullVariant(variant: Json) {
    variant.JObject? && Get(variant.fields, "type") == JString("null")
  }

  function NonNull(variants: seq<Json>): seq<Json> {
    if variants == [] then []
    else
      var last := variants[|variants| - 1];
      NonNull(variants[..|variants| - 1]) + (if IsNullVariant(last) then [] else [last])
  }

  /** The single remaining variant is folded into the schema. */
  predicate Merges(schema: Dict) {
    var anyOf := Get(schema, "anyOf");
    anyOf.JList? && |NonNull(anyOf.items)| == 1 && NonNull(anyOf.items)[0].JObject?
  }

  /** The variant that is folded in. */
  function Merged(schema: Dict): Dict
    requires Merges(schema)
  {
    NonNull(Get(schema, "anyOf").items)[0].fields
  }

  /** `_remove_null_schema_variant`. */
  function RemoveNullVariant(schema: Dict): Dict {
    var anyOf := Get(schema, "anyOf");
    if !anyOf.JList? then schema
    else
      var nonNull := NonNull(anyOf.items);
      if Merges(schema) then (schema - {"anyOf"}) + Merged(schema)
      else if |nonNull| != |anyOf.items| then schema["anyOf" := JList(nonNull)]
      else schema
  }

  /** A variant of the null type, with or without other keywords. */
  ghost predicate IsNull(variant: Json) {
    variant.JObject? && "type" in variant.fields && variant.fields["type"] == JString("null")
  }

  /** The items are those variants that are not null, at these indices, in their order. */
  ghost predicate AreRest(variants: seq<Json>, indices: seq<int>, items: seq<Json>) {
    && |items| == |indices|
    && (forall a, b :: 0 <= a < b < |indices| ==> indices[a] < indices[b])
    && (forall a :: 0 <= a < |indices| ==> 0 <= indices[a] < |variants| && items[a] == variants[indices[a]])
    && (forall i :: 0 <= i < |variants| ==> (i in indices <==> !IsNull(variants[i])))
  }

  lemma {:induction false} NonNullExactly(variants: seq<Json>) returns (indices: seq<int>)
    ensures AreRest(variants, indices, NonNull(variants))
  {
    indices := [];
    if variants != [] {
      var (front, last) := (variants[..|variants| - 1], |variants| - 1);
      var before := NonNullExactly(front);
      OneMoreRest(variants, before, NonNull(front));
      if IsNull(variants[last]) {
        indices := before;
        assert NonNull(variants) == NonNull(front);
      } else {
        indices := before + [last];
      }
    }
  }

  lemma {:induction false} OneMoreRest(variants: seq<Json>, before: seq<int>, items: seq<Json>)
    requires variants != [] && AreRest(variants[..|variants| - 1], before, items)
    ensures var last := |variants| - 1;
            if IsNull(variants[last]) then AreRest(variants, before, items)
            else AreRest(variants, before + [last], items + [variants[last]])
  {
    var (front, last) := (variants[..|variants| - 1], |variants| - 1);
    assert forall i :: 0 <= i < last ==> front[i] == variants[i];
    assert forall a :: 0 <= a < |before| ==> before[a] in before;
    assert last !in before;
    assert forall i :: i in before + [last] <==> i in before || i == last;
  }

  /**
   What the rewrite makes of a list of variants, by those that are not null: an object left alone is
   folded in and wins over the siblings, else they are the new list, and all else stays as it is.
   */
  lemma {:induction false} RewriteExactly(schema: Dict) returns (indices: seq<int>, rest: seq<Json>)
    requires "anyOf" in schema && schema["anyOf"].JList?
    ensures AreRest(schema["anyOf"].items, indices, rest)
    ensures var (result, others) := (RemoveNullVariant(schema), schema - {"anyOf"});
            if |rest| == 1 && rest[0].JObject? then result == others + rest[0].fields
            else "anyOf" in result && result["anyOf"] == JList(rest) && result - {"anyOf"} == others
  {
    var variants := schema["anyOf"].items;
    indices := NonNullExactly(variants);
    rest := NonNull(variants);
    NonNullAreVariants(variants);
  }

  // ----- what a schema means

  /** The siblings that each keyword reads, beside its own argument. */
  type Siblings = string -> set<string>

  /** Those of the 2020-12 vocabularies (sections 8.2, 10 and 11 of JSON Schema Core, 6.4 and 8.5 of Validation). */
  ghost function StandardSiblings(keyword: string): set<string> {
    match keyword
    case "$ref" => {"$id"}
    case "$dynamicRef" => {"$id", "$dynamicAnchor"}
    case "then" => {"if"}
    case "else" => {"if"}
    case "items" => {"prefixItems"}
    case "contains" => {"minContains", "maxContains"}
    case "minContains" => {"contains"}
    case "maxContains" => {"contains"}
    case "additionalProperties" => {"properties", "patternProperties"}
    case "contentSchema" => {"contentMediaType", "contentEncoding"}
    case "unevaluatedItems" => {"prefixItems", "items", "contains"} + APPLICATORS
    case "unevaluatedProperties" =>
      {"properties", "patternProperties", "additionalProperties", "dependentSchemas"} + APPLICATORS
    case _ => {}
  }

  ghost const APPLICATORS: set<string> :=
    {"allOf", "anyOf", "oneOf", "not", "if", "then", "else", "$ref", "$dynamicRef"}

  /** What a keyword of a schema object sees of it: its own argument and the siblings it reads. */
  function Seen(siblings: Siblings, fields: Dict, keyword: string): Dict {
    map j | j in fields && (j == keyword || j in siblings(keyword)) :: fields[j]
  }

  /** Whether a keyword, with what it sees, accepts a value. */
  type Reading = (string, Dict, Json) -> bool

  /** The keywords that a reading decides: all but an `anyOf` with its list of variants. */
  predicate Plain(fields: Dict, k: string) {
    k in fields && (k != "anyOf" || !fields[k].JList?)
  }

  predicate HasVariants(fields: Dict) {
    "anyOf" in fields && fields["anyOf"].JList?
  }

  /**
   A schema accepts what all its keywords accept (section 7.6 of JSON Schema Core 2020-12), and `anyOf`
   what some variant accepts (section 10.2.1.2).
   */
  predicate Accepts(siblings: Siblings, holds: Reading, schema: Json, value: Json)
    decreases schema
  {
    match schema
    case JBool(b) => b
    case JObject(fields) =>
      && PlainHold(siblings, holds, fields, value)
      && (HasVariants(fields) ==>
            exists i :: 0 <= i < |fields["anyOf"].items| && Accepts(siblings, holds, fields["anyOf"].items[i], value))
    case _ => false
  }

  predicate PlainHold(siblings: Siblings, holds: Reading, fields: Dict, value: Json) {
    forall k :: k in fields && Plain(fields, k) ==> holds(k, Seen(siblings, fields, k), value)
  }

  predicate OnlyNull(fields: Dict) {
    Get(fields, "type") == JString("null")
  }

  /** The null type accepts nothing but null. */
  ghost predicate Sound(holds: Reading) {
    forall seen: Dict, value: Json :: value != JNull && OnlyNull(seen) ==> !holds("type", seen, value)
  }

  /** The two accept the same values but for null, however the keywords are read. */
  ghost predicate SameMeaning(siblings: Siblings, a: Json, b: Json) {
    forall holds: Reading, value: Json :: Sound(holds) && value != JNull ==>
      (Accepts(siblings, holds, a, value) <==> Accepts(siblings, holds, b, value))
  }

  ghost predicate Preserved(siblings: Siblings, schema: Dict) {
    SameMeaning(siblings, JObject(schema), JObject(RemoveNullVariant(schema)))
  }

  // ----- supports: what a value has to get past

  /** A keyword with what it sees. */
  type Context = (string, Dict)

  function Own(siblings: Siblings, fields: Dict): set<Context> {
    set k | k in fields && Plain(fields, k) :: (k, Seen(siblings, fields, k))
  }

  /** The sets of contexts that are enough to be accepted, one for each choice of variants. */
  function Supports(siblings: Siblings, schema: Json): set<set<Context>>
    decreases schema
  {
    match schema
    case JBool(b) => if b then {{}} else {}
    case JObject(fields) =>
      if HasVariants(fields) then
        set i, s | 0 <= i < |fields["anyOf"].items|
          && s in Supports(siblings, fields["anyOf"].items[i]) :: Own(siblings, fields) + s
      else {Own(siblings, fields)}
    case _ => {}
  }

  ghost predicate Hold(holds: Reading, s: set<Context>, value: Json) {
    forall c :: c in s ==> holds(c.0, c.1, value)
  }

  lemma {:induction false} OwnHold(siblings: Siblings, holds: Reading, fields: Dict, value: Json)
    ensures PlainHold(siblings, holds, fields, value) <==> Hold(holds, Own(siblings, fields), value)
  {
    forall k | k in fields && Plain(fields, k)
      ensures (k, Seen(siblings, fields, k)) in Own(siblings, fields)
    {
    }
  }

  lemma {:induction false} AcceptsBySupport(siblings: Siblings, holds: Reading, schema: Json, value: Json)
    ensures Accepts(siblings, holds, schema, value)
            <==> exists s :: s in Supports(siblings, schema) && Hold(holds, s, value)
    decreases schema
  {
    match schema
    case JBool(b) => assert Hold(holds, {}, value);
    case JObject(fields) =>
      OwnHold(siblings, holds, fields, value);
      if HasVariants(fields) {
        VariantsBySupport(siblings, holds, fields, value);
      } else {
        assert Own(siblings, fields) in Supports(siblings, schema);
      }
    case _ =>
  }

  lemma {:induction false} VariantsBySupport(siblings: Siblings, holds: Reading, fields: Dict, value: Json)
    requires HasVariants(fields)
    ensures Accepts(siblings, holds, JObject(fields), value) <==>
            exists s :: s in Supports(siblings, JObject(fields)) && Hold(holds, s, value)
    decreases fields["anyOf"], 0
  {
    var (own, items) := (Own(siblings, fields), fields["anyOf"].items);
    OwnHold(siblings, holds, fields, value);
    forall i | 0 <= i < |items|
      ensures Accepts(siblings, holds, items[i], value)
              <==> exists s :: s in Supports(siblings, items[i]) && Hold(holds, s, value)
    {
      AcceptsBySupport(siblings, holds, items[i], value);
    }
    if Accepts(siblings, holds, JObject(fields), value) {
      var i :| 0 <= i < |items| && Accepts(siblings, holds, items[i], value);
      var s :| s in Supports(siblings, items[i]) && Hold(holds, s, value);
      assert own + s in Supports(siblings, JObject(fields)) && Hold(holds, own + s, value);
    }
    if t :| t in Supports(siblings, JObject(fields)) && Hold(holds, t, value) {
      var i, s :| 0 <= i < |items| && s in Supports(siblings, items[i]) && t == own + s;
      assert Hold(holds, s, value) && Hold(holds, own, value);
    }
  }

  /** Some value other than null can get past these contexts. */
  ghost predicate Viable(s: set<Context>) {
    forall c :: c in s ==> !(c.0 == "type" && OnlyNull(c.1))
  }

  ghost predicate Covers(a: set<set<Context>>, b: set<set<Context>>) {
    forall s :: s in a && Viable(s) ==> exists t :: t in b && t <= s
  }

  /** `b` accepts all that `a` does but for null, however the keywords are read. */
  ghost predicate Includes(siblings: Siblings, a: Json, b: Json) {
    forall holds: Reading, value: Json :: Sound(holds) && value != JNull && Accepts(siblings, holds, a, value) ==>
      Accepts(siblings, holds, b, value)
  }

  /** One schema accepts all that another does exactly when it asks for no more. */
  lemma {:induction false} IncludesBySupports(siblings: Siblings, a: Json, b: Json)
    ensures Includes(siblings, a, b) <==> Covers(Supports(siblings, a), Supports(siblings, b))
  {
    if Covers(Supports(siblings, a), Supports(siblings, b)) {
      forall holds: Reading, value: Json | Sound(holds) && value != JNull && Accepts(siblings, holds, a, value)
        ensures Accepts(siblings, holds, b, value)
      {
        AcceptsBySupport(siblings, holds, a, value);
        AcceptsBySupport(siblings, holds, b, value);
        var s :| s in Supports(siblings, a) && Hold(holds, s, value);
        assert Viable(s);
        var t :| t in Supports(siblings, b) && t <= s;
        assert Hold(holds, t, value);
      }
    } else {
      var s :| s in Supports(siblings, a) && Viable(s) && !exists t :: t in Supports(siblings, b) && t <= s;
      NotIncluded(siblings, a, b, s);
    }
  }

  lemma {:induction false} NotIncluded(siblings: Siblings, a: Json, b: Json, s: set<Context>)
    requires s in Supports(siblings, a) && Viable(s) && !exists t :: t in Supports(siblings, b) && t <= s
    ensures !Includes(siblings, a, b)
  {
    var holds := ExactlyIn(s);
    AcceptsBySupport(siblings, holds, a, JBool(true));
    AcceptsBySupport(siblings, holds, b, JBool(true));
    assert Hold(holds, s, JBool(true));
    forall t | t in Supports(siblings, b)
      ensures !Hold(holds, t, JBool(true))
    {
      var c :| c in t && c !in s;
      assert !holds(c.0, c.1, JBool(true));
    }
    assert Sound(holds) && !Accepts(siblings, holds, b, JBool(true));
  }

  /** The reading under which exactly the given contexts accept. */
  ghost function ExactlyIn(s: set<Context>): Reading {
    (k: string, seen: Dict, value: Json) => (k, seen) in s
  }

  /** Two schemas mean the same exactly when the viable supports of each cover those of the other. */
  lemma {:induction false} SameMeaningBySupports(siblings: Siblings, a: Json, b: Json)
    ensures SameMeaning(siblings, a, b) <==>
            Covers(Supports(siblings, a), Supports(siblings, b)) && Covers(Supports(siblings, b), Supports(siblings, a))
  {
    IncludesBySupports(siblings, a, b);
    IncludesBySupports(siblings, b, a);
    SameIsBoth(siblings, a, b);
  }

  lemma {:induction false} SameIsBoth(siblings: Siblings, a: Json, b: Json)
    ensures SameMeaning(siblings, a, b) <==> Includes(siblings, a, b) && Includes(siblings, b, a)
  {
    if Includes(siblings, a, b) && Includes(siblings, b, a) {
      forall holds: Reading, value: Json | Sound(holds) && value != JNull
        ensures Accepts(siblings, holds, a, value) <==> Accepts(siblings, holds, b, value)
      {
      }
    }
  }

  // ----- the guard

  /** Every keyword of `fields` is a keyword of `result`, and sees there what it saw. */
  ghost predicate Undisturbed(siblings: Siblings, fields: Dict, result: Dict) {
    forall k :: k in fields && Plain(fields, k)
      ==> Plain(result, k) && Seen(siblings, fields, k) == Seen(siblings, result, k)
  }

  /**
   The rewrite disturbs no keyword: none is overwritten, and none gains, loses or finds changed a
   sibling that it reads, neither of the schema nor of the variant folded in.
   */
  ghost predicate NoConflict(siblings: Siblings, schema: Dict) {
    && Undisturbed(siblings, schema, RemoveNullVariant(schema))
    && (Merges(schema) ==> Undisturbed(siblings, Merged(schema), RemoveNullVariant(schema)))
  }

  /** The guard keyword by keyword, for a variant that is folded in. */
  ghost predicate KeywordsAgree(siblings: Siblings, schema: Dict)
    requires Merges(schema)
  {
    var variant := Merged(schema);
    && (forall k :: k in schema && k in variant && k != "anyOf" ==> schema[k] == variant[k])
    && (forall k, j :: k in schema && k != "anyOf" && j in siblings(k)
          ==> j != "anyOf" && (j in variant ==> j in schema))
    && (forall k, j :: k in variant && Plain(variant, k) && j in siblings(k) && j in schema && j != "anyOf"
          ==> j in variant)
  }

  lemma {:induction false} NoConflictByKeywords(siblings: Siblings, schema: Dict)
    requires Merges(schema)
    ensures NoConflict(siblings, schema) <==> KeywordsAgree(siblings, schema)
  {
    var (variant, result) := (Merged(schema), RemoveNullVariant(schema));
    MergedFields(schema);
    if KeywordsAgree(siblings, schema) {
      forall k | k in schema && Plain(schema, k)
        ensures Plain(result, k) && Seen(siblings, schema, k) == Seen(siblings, result, k)
      {
        assert k != "anyOf" && forall j :: j in siblings(k) && j in variant ==> schema[j] == variant[j];
      }
      forall k | k in variant && Plain(variant, k)
        ensures Plain(result, k) && Seen(siblings, variant, k) == Seen(siblings, result, k)
      {
      }
    }
    if NoConflict(siblings, schema) {
      ConflictFreeKeywords(siblings, schema);
    }
  }

  lemma {:induction false} MergedFields(schema: Dict)
    requires Merges(schema)
    ensures var (variant, result) := (Merged(schema), RemoveNullVariant(schema));
            && (forall k :: k in result <==> (k in schema && k != "anyOf") || k in variant)
            && (forall k :: k in variant ==> result[k] == variant[k])
            && (forall k :: k in schema && k != "anyOf" && k !in variant ==> result[k] == schema[k])
            && (forall k :: k in schema && k != "anyOf" ==> Plain(schema, k))
            && ("anyOf" in result ==> result["anyOf"] != schema["anyOf"])
  {
    if "anyOf" in Merged(schema) {
      MergedIsInside(schema);
    }
  }

  lemma {:induction false} ConflictFreeKeywords(siblings: Siblings, schema: Dict)
    requires Merges(schema) && NoConflict(siblings, schema)
    ensures KeywordsAgree(siblings, schema)
  {
    var (variant, result) := (Merged(schema), RemoveNullVariant(schema));
    MergedFields(schema);
    forall k | k in schema && k != "anyOf"
      ensures k in variant ==> schema[k] == variant[k]
      ensures forall j :: j in siblings(k) ==> j != "anyOf" && (j in variant ==> j in schema)
    {
      var (before, after) := (Seen(siblings, schema, k), Seen(siblings, result, k));
      assert before == after && before[k] == schema[k] && after[k] == result[k];
      forall j | j in siblings(k)
        ensures j != "anyOf" && (j in variant ==> j in schema)
      {
        assert (j in before <==> j in schema) && (j in after <==> j in result);
        assert j in before ==> before[j] == schema[j] && after[j] == result[j];
      }
    }
    forall k, j | k in variant && Plain(variant, k) && j in siblings(k) && j in schema && j != "anyOf"
      ensures j in variant
    {
      assert Seen(siblings, variant, k) == Seen(siblings, result, k);
      assert (j in Seen(siblings, variant, k) <==> j in variant) && j in Seen(siblings, result, k);
    }
  }

  // ----- when the rewrite keeps the meaning

  predicate SomeAccepts(siblings: Siblings, holds: Reading, variants: seq<Json>, value: Json) {
    exists i :: 0 <= i < |variants| && Accepts(siblings, holds, variants[i], value)
  }

  /** For a value that is not null the null variants do not matter. */
  lemma {:induction false} NullVariantsReject(siblings: Siblings, holds: Reading, variants: seq<Json>, value: Json)
    requires Sound(holds) && value != JNull
    ensures SomeAccepts(siblings, holds, variants, value) <==> SomeAccepts(siblings, holds, NonNull(variants), value)
  {
    if variants != [] {
      var (front, last) := (variants[..|variants| - 1], variants[|variants| - 1]);
      NullVariantsReject(siblings, holds, front, value);
      SomeAcceptsAppends(siblings, holds, front, [last], value);
      SomeAcceptsAppends(siblings, holds, NonNull(front), if IsNullVariant(last) then [] else [last], value);
      assert variants == front + [last];
      if IsNullVariant(last) {
        NullRejects(siblings, holds, last.fields, value);
      }
    }
  }

  lemma {:induction false} NullRejects(siblings: Siblings, holds: Reading, fields: Dict, value: Json)
    requires Sound(holds) && value != JNull && OnlyNull(fields)
    ensures !Accepts(siblings, holds, JObject(fields), value)
  {
    var seen := Seen(siblings, fields, "type");
    assert "type" in fields && Plain(fields, "type") && seen["type"] == fields["type"];
    assert !holds("type", seen, value);
  }

  lemma {:induction false} SomeAcceptsAppends(siblings: Siblings, holds: Reading, a: seq<Json>, b: seq<Json>,
                                              value: Json)
    ensures SomeAccepts(siblings, holds, a + b, value)
            <==> SomeAccepts(siblings, holds, a, value) || SomeAccepts(siblings, holds, b, value)
  {
    if SomeAccepts(siblings, holds, a, value) {
      var i :| 0 <= i < |a| && Accepts(siblings, holds, a[i], value);
      assert Accepts(siblings, holds, (a + b)[i], value);
    }
    if SomeAccepts(siblings, holds, b, value) {
      var i :| 0 <= i < |b| && Accepts(siblings, holds, b[i], value);
      assert Accepts(siblings, holds, (a + b)[|a| + i], value);
    }
  }

  lemma {:induction false} AcceptsParts(siblings: Siblings, holds: Reading, fields: Dict, value: Json)
    ensures Accepts(siblings, holds, JObject(fields), value) <==>
            PlainHold(siblings, holds, fields, value)
            && (HasVariants(fields) ==> SomeAccepts(siblings, holds, fields["anyOf"].items, value))
  {
  }

  /** Undisturbed keywords hold where they held. */
  lemma {:induction false} UndisturbedHold(siblings: Siblings, holds: Reading, fields: Dict, result: Dict, value: Json)
    requires Undisturbed(siblings, fields, result) && PlainHold(siblings, holds, result, value)
    ensures PlainHold(siblings, holds, fields, value)
  {
    forall k | k in fields && Plain(fields, k)
      ensures holds(k, Seen(siblings, fields, k), value)
    {
      assert Plain(result, k) && Seen(siblings, fields, k) == Seen(siblings, result, k);
    }
  }

  /** Without a conflict, folding the variant in is the same as asking for both. */
  lemma {:induction false} MergeMeans(siblings: Siblings, holds: Reading, schema: Dict, value: Json)
    requires Merges(schema) && NoConflict(siblings, schema)
    ensures PlainHold(siblings, holds, RemoveNullVariant(schema), value) <==>
            PlainHold(siblings, holds, schema, value) && PlainHold(siblings, holds, Merged(schema), value)
  {
    var (variant, result) := (Merged(schema), RemoveNullVariant(schema));
    MergedFields(schema);
    if PlainHold(siblings, holds, result, value) {
      UndisturbedHold(siblings, holds, schema, result, value);
      UndisturbedHold(siblings, holds, variant, result, value);
    }
    if PlainHold(siblings, holds, schema, value) && PlainHold(siblings, holds, variant, value) {
      forall k | k in result && Plain(result, k)
        ensures holds(k, Seen(siblings, result, k), value)
      {
        if k in variant {
          assert Plain(variant, k) && Seen(siblings, variant, k) == Seen(siblings, result, k);
        } else {
          assert Plain(schema, k) && Seen(siblings, schema, k) == Seen(siblings, result, k);
        }
      }
    }
  }

  /** Without a conflict, a value other than null is accepted after the rewrite exactly when it was before. */
  lemma {:induction false} MeaningKept(siblings: Siblings, holds: Reading, schema: Dict, value: Json)
    requires Sound(holds) && value != JNull && NoConflict(siblings, schema)
    ensures Accepts(siblings, holds, JObject(schema), value)
            <==> Accepts(siblings, holds, JObject(RemoveNullVariant(schema)), value)
  {
    var (anyOf, result) := (Get(schema, "anyOf"), RemoveNullVariant(schema));
    if anyOf.JList? {
      NullVariantsReject(siblings, holds, anyOf.items, value);
      AcceptsParts(siblings, holds, schema, value);
      AcceptsParts(siblings, holds, result, value);
      if Merges(schema) {
        MergeMeans(siblings, holds, schema, value);
        AcceptsParts(siblings, holds, Merged(schema), value);
        assert SomeAccepts(siblings, holds, NonNull(anyOf.items), value)
          <==> Accepts(siblings, holds, NonNull(anyOf.items)[0], value);
        MergedFields(schema);
        assert HasVariants(result) <==> HasVariants(Merged(schema));
      } else {
        FilteredMeans(siblings, holds, schema, value);
      }
    }
  }

  lemma {:induction false} FilteredMeans(siblings: Siblings, holds: Reading, schema: Dict, value: Json)
    requires HasVariants(schema) && !Merges(schema) && NoConflict(siblings, schema)
    ensures var result := RemoveNullVariant(schema);
            && HasVariants(result) && result["anyOf"] in {JList(NonNull(schema["anyOf"].items)), schema["anyOf"]}
            && (result["anyOf"] == schema["anyOf"] ==> result == schema)
            && (PlainHold(siblings, holds, result, value) <==> PlainHold(siblings, holds, schema, value))
  {
    var result := RemoveNullVariant(schema);
    assert result.Keys == schema.Keys && forall k :: k in schema && k != "anyOf" ==> result[k] == schema[k];
    if PlainHold(siblings, holds, result, value) {
      UndisturbedHold(siblings, holds, schema, result, value);
    }
    if PlainHold(siblings, holds, schema, value) {
      forall k | k in result && Plain(result, k)
        ensures holds(k, Seen(siblings, result, k), value)
      {
        assert Plain(schema, k) && Seen(siblings, schema, k) == Seen(siblings, result, k);
      }
    }
  }

  /**
   The rewrite keeps the meaning of a schema for every value but null, however its keywords are read,
   exactly when the viable supports before and after cover each other.  It does whenever no keyword is
   disturbed or nothing but null is left; and only then, where the variant folded in has no `anyOf`.
   */
  lemma {:induction false} PreservedExactly(siblings: Siblings, schema: Dict)
    ensures var (before, after) :=
            (Supports(siblings, JObject(schema)), Supports(siblings, JObject(RemoveNullVariant(schema))));
            Preserved(siblings, schema) <==> Covers(before, after) && Covers(after, before)
    ensures NoConflict(siblings, schema) || (Merges(schema) && OnlyNull(RemoveNullVariant(schema)))
            ==> Preserved(siblings, schema)
    ensures Merges(schema) && "anyOf" !in Merged(schema) ==>
              (Preserved(siblings, schema) <==> NoConflict(siblings, schema) || OnlyNull(RemoveNullVariant(schema)))
  {
    SameMeaningBySupports(siblings, JObject(schema), JObject(RemoveNullVariant(schema)));
    if NoConflict(siblings, schema) {
      forall holds: Reading, value: Json | Sound(holds) && value != JNull
        ensures Accepts(siblings, holds, JObject(schema), value)
                <==> Accepts(siblings, holds, JObject(RemoveNullVariant(schema)), value)
      {
        MeaningKept(siblings, holds, schema, value);
      }
    } else if Merges(schema) {
      if OnlyNull(RemoveNullVariant(schema)) {
        LeftOnlyNull(siblings, schema);
      } else if "anyOf" !in Merged(schema) {
        ConflictShows(siblings, schema);
      }
    }
  }

  /** If what is left accepts only null, so did the schema itself. */
  lemma {:induction false} LeftOnlyNull(siblings: Siblings, schema: Dict)
    requires Merges(schema) && OnlyNull(RemoveNullVariant(schema))
    ensures OnlyNull(schema) && Preserved(siblings, schema)
  {
    var result := RemoveNullVariant(schema);
    MergedIsNotNull(Get(schema, "anyOf").items);
    assert !IsNullVariant(NonNull(Get(schema, "anyOf").items)[0]);
    assert "type" !in Merged(schema);
    forall holds: Reading, value: Json | Sound(holds) && value != JNull
      ensures !Accepts(siblings, holds, JObject(schema), value) && !Accepts(siblings, holds, JObject(result), value)
    {
      NullRejects(siblings, holds, schema, value);
      NullRejects(siblings, holds, result, value);
    }
  }

  /** A disturbed keyword can be read so that the rewrite changes the meaning. */
  lemma {:induction false} ConflictShows(siblings: Siblings, schema: Dict)
    requires Merges(schema) && "anyOf" !in Merged(schema) && !NoConflict(siblings, schema)
             && !OnlyNull(RemoveNullVariant(schema))
    ensures !Preserved(siblings, schema)
  {
    var result := RemoveNullVariant(schema);
    SameMeaningBySupports(siblings, JObject(schema), JObject(result));
    var (before, after) := (Supports(siblings, JObject(schema)), Supports(siblings, JObject(result)));
    if Covers(after, before) {
      MergedFields(schema);
      assert Own(siblings, result) in after;
      OwnIsViable(siblings, result);
      var t :| t in before && t <= Own(siblings, result);
      CoveredWithoutConflict(siblings, schema, t);
    }
  }

  lemma {:induction false} CoveredWithoutConflict(siblings: Siblings, schema: Dict, t: set<Context>)
    requires Merges(schema) && "anyOf" !in Merged(schema) && !OnlyNull(RemoveNullVariant(schema))
    requires t in Supports(siblings, JObject(schema)) && t <= Own(siblings, RemoveNullVariant(schema))
    ensures NoConflict(siblings, schema)
  {
    var (variant, result, items) := (Merged(schema), RemoveNullVariant(schema), schema["anyOf"].items);
    var i, s :| 0 <= i < |items| && s in Supports(siblings, items[i]) && t == Own(siblings, schema) + s;
    OwnIsViable(siblings, result);
    assert Viable(s);
    OnlyMergedIsViable(siblings, schema, i, s);
    assert s == Own(siblings, variant);
    WithinIsUndisturbed(siblings, schema, result);
    WithinIsUndisturbed(siblings, variant, result);
  }

  lemma {:induction false} OwnIsViable(siblings: Siblings, fields: Dict)
    requires !OnlyNull(fields)
    ensures Viable(Own(siblings, fields))
  {
  }

  lemma {:induction false} WithinIsUndisturbed(siblings: Siblings, fields: Dict, result: Dict)
    requires Own(siblings, fields) <= Own(siblings, result)
    ensures Undisturbed(siblings, fields, result)
  {
    forall k | k in fields && Plain(fields, k)
      ensures Plain(result, k) && Seen(siblings, fields, k) == Seen(siblings, result, k)
    {
      assert (k, Seen(siblings, fields, k)) in Own(siblings, fields);
    }
  }

  /** A viable support comes from the one variant that is no null variant. */
  lemma {:induction false} OnlyMergedIsViable(siblings: Siblings, schema: Dict, i: nat, s: set<Context>)
    requires Merges(schema) && i < |schema["anyOf"].items| && s in Supports(siblings, schema["anyOf"].items[i])
             && Viable(s)
    ensures schema["anyOf"].items[i] == JObject(Merged(schema))
  {
    var (items, variant) := (schema["anyOf"].items, schema["anyOf"].items[i]);
    if IsNullVariant(variant) {
      var fields := variant.fields;
      var context := ("type", Seen(siblings, fields, "type"));
      assert "type" in fields && Plain(fields, "type") && context in Own(siblings, fields);
      assert OnlyNull(context.1) && context in s;
    } else {
      NonNullHas(items, i);
    }
  }

  lemma {:induction false} NonNullHas(variants: seq<Json>, i: nat)
    requires i < |variants| && !IsNullVariant(variants[i])
    ensures variants[i] in NonNull(variants)
  {
    if i < |variants| - 1 {
      NonNullHas(variants[..|variants| - 1], i);
    }
  }

  lemma {:induction false} MergedIsNotNull(variants: seq<Json>)
    ensures forall i :: 0 <= i < |NonNull(variants)| ==> !IsNullVariant(NonNull(variants)[i])
  {
    if variants != [] {
      MergedIsNotNull(variants[..|variants| - 1]);
    }
  }

  // ----- a keyword that reads a sibling

  const EMPTY_SCHEMA := JObject(map[])
  /** Known properties, and a nullable variant that allows no others. */
  const CLOSED: Dict := map[
    "properties" := JObject(map["a" := EMPTY_SCHEMA]),
    "anyOf" := JList([JObject(map["additionalProperties" := JBool(false)]), NULL_SCHEMA])]
  const KNOWN := JObject(map["a" := JInt(1)])

  /** `additionalProperties: false` accepts objects without properties beyond those it sees declared. */
  predicate AdditionalIsFalse(keyword: string, seen: Dict, value: Json) {
    if keyword == "additionalProperties" && Get(seen, keyword) == JBool(false) && value.JObject? then
      value.fields.Keys <= DictOrEmpty(Get(seen, "properties")).Keys
    else !(keyword == "type" && OnlyNull(seen))
  }

  const CLOSING: Dict := map["additionalProperties" := JBool(false)]
  const REWRITTEN: Dict := map["properties" := CLOSED["properties"], "additionalProperties" := JBool(false)]

  lemma {:induction false} ClosedIsRewritten()
    ensures Merges(CLOSED) && Merged(CLOSED) == CLOSING && RemoveNullVariant(CLOSED) == REWRITTEN
  {
    NonNullOfPair(JObject(CLOSING));
    assert NonNull(CLOSED["anyOf"].items) == [JObject(CLOSING)];
    assert CLOSED - {"anyOf"} == map["properties" := CLOSED["properties"]];
  }

  lemma {:induction false} ClosedRejects()
    ensures Sound(AdditionalIsFalse) && !Accepts(StandardSiblings, AdditionalIsFalse, JObject(CLOSED), KNOWN)
  {
    var items := CLOSED["anyOf"].items;
    assert Seen(StandardSiblings, CLOSING, "additionalProperties") == CLOSING;
    assert "a" in KNOWN.fields && "a" !in DictOrEmpty(Get(CLOSING, "properties"));
    assert !AdditionalIsFalse("additionalProperties", CLOSING, KNOWN);
    assert !PlainHold(StandardSiblings, AdditionalIsFalse, CLOSING, KNOWN);
    assert !Accepts(StandardSiblings, AdditionalIsFalse, items[0], KNOWN);
    NullRejects(StandardSiblings, AdditionalIsFalse, NULL_SCHEMA.fields, KNOWN);
    assert forall i :: 0 <= i < |items| ==> !Accepts(StandardSiblings, AdditionalIsFalse, items[i], KNOWN);
    AcceptsParts(StandardSiblings, AdditionalIsFalse, CLOSED, KNOWN);
  }

  lemma {:induction false} RewrittenAccepts()
    ensures Accepts(StandardSiblings, AdditionalIsFalse, JObject(REWRITTEN), KNOWN)
  {
    assert Seen(StandardSiblings, REWRITTEN, "additionalProperties") == REWRITTEN;
    assert "a" in DictOrEmpty(Get(REWRITTEN, "properties"));
    assert AdditionalIsFalse("additionalProperties", REWRITTEN, KNOWN);
    AcceptsParts(StandardSiblings, AdditionalIsFalse, REWRITTEN, KNOWN);
  }

  /**
   Nothing is overwritten here, and yet the meaning changes: alone, the variant rejects a known property;
   folded in, it sees that the property is declared.
   */
  lemma {:induction false} SiblingIsRead()
    ensures Merges(CLOSED) && Merged(CLOSED).Keys !! CLOSED.Keys && !NoConflict(StandardSiblings, CLOSED)
    ensures Sound(AdditionalIsFalse)
    ensures !Accepts(StandardSiblings, AdditionalIsFalse, JObject(CLOSED), KNOWN)
    ensures Accepts(StandardSiblings, AdditionalIsFalse, JObject(RemoveNullVariant(CLOSED)), KNOWN)
  {
    ClosedIsRewritten();
    ClosedRejects();
    RewrittenAccepts();
    if NoConflict(StandardSiblings, CLOSED) {
      MeaningKept(StandardSiblings, AdditionalIsFalse, CLOSED, KNOWN);
    }
  }

  // ----- doing it twice

  lemma {:induction false} NonNullTwice(variants: seq<Json>)
    ensures NonNull(NonNull(variants)) == NonNull(variants)
  {
    if variants != [] {
      var (front, last) := (variants[..|variants| - 1], variants[|variants| - 1]);
      NonNullTwice(front);
      if IsNullVariant(last) {
        assert NonNull(variants) == NonNull(front);
      } else {
        var kept := NonNull(front) + [last];
        assert kept[..|kept| - 1] == NonNull(front) && NonNull(variants) == kept;
      }
    }
  }

  /** The rewrite has nothing to do. */
  predicate Settled(schema: Dict) {
    var anyOf := Get(schema, "anyOf");
    anyOf.JList? ==> !Merges(schema) && |NonNull(anyOf.items)| == |anyOf.items|
  }

  lemma {:induction false} MergedIsInside(schema: Dict)
    requires Merges(schema) && "anyOf" in Merged(schema)
    ensures Merged(schema)["anyOf"] != schema["anyOf"]
  {
    var (items, variant) := (schema["anyOf"].items, JObject(Merged(schema)));
    NonNullAreVariants(items);
    assert variant in items;
    assert Merged(schema)["anyOf"] < variant;
    var i :| 0 <= i < |items| && items[i] == variant;
    assert items[i] < JList(items);
  }

  lemma {:induction false} NonNullAreVariants(variants: seq<Json>)
    ensures forall v :: v in NonNull(variants) ==> v in variants
    ensures |NonNull(variants)| <= |variants| && (|NonNull(variants)| == |variants| ==> NonNull(variants) == variants)
  {
    if variants != [] {
      NonNullAreVariants(variants[..|variants| - 1]);
      assert variants == variants[..|variants| - 1] + [variants[|variants| - 1]];
    }
  }

  lemma {:induction false} SettledIsFixed(schema: Dict)
    ensures RemoveNullVariant(schema) == schema <==> Settled(schema)
  {
    var anyOf := Get(schema, "anyOf");
    if anyOf.JList? {
      if Merges(schema) {
        if "anyOf" in Merged(schema) {
          MergedIsInside(schema);
        }
        assert "anyOf" in RemoveNullVariant(schema) ==> RemoveNullVariant(schema)["anyOf"] != schema["anyOf"];
      } else if |NonNull(anyOf.items)| != |anyOf.items| {
        assert RemoveNullVariant(schema)["anyOf"].items != schema["anyOf"].items;
      }
    }
  }

  /** Rewriting twice is rewriting once exactly when the variant folded in, if any, needs no rewriting itself. */
  lemma {:induction false} IdempotentExactly(schema: Dict)
    ensures RemoveNullVariant(RemoveNullVariant(schema)) == RemoveNullVariant(schema)
            <==> (Merges(schema) ==> Settled(Merged(schema)))
  {
    var (anyOf, result) := (Get(schema, "anyOf"), RemoveNullVariant(schema));
    SettledIsFixed(result);
    if Merges(schema) {
      assert Get(result, "anyOf") == Get(Merged(schema), "anyOf");
    } else if anyOf.JList? {
      NonNullTwice(anyOf.items);
      assert Get(result, "anyOf") in {anyOf, JList(NonNull(anyOf.items))};
    }
  }

  const NULL_SCHEMA := JObject(map["type" := JString("null")])
  const TEXT_SCHEMA := JObject(map["type" := JString("string")])
  /** A nullable variant inside a nullable schema. */
  const NESTED: Dict := map["anyOf" := JList([JObject(map["anyOf" := JList([TEXT_SCHEMA, NULL_SCHEMA])]), NULL_SCHEMA])]

  lemma {:induction false} NonNullOfPair(variant: Json)
    requires !IsNullVariant(variant)
    ensures NonNull([variant, NULL_SCHEMA]) == [variant]
  {
    var pair := [variant, NULL_SCHEMA];
    assert IsNullVariant(pair[1]);
    assert pair[..|pair| - 1] == [variant] && [variant][..0] == [];
    assert NonNull([variant][..0]) == [];
    assert NonNull([variant]) == [] + [variant];
    assert NonNull(pair) == NonNull([variant]) + [];
  }

  /** There the first rewrite leaves a null variant for a second one. */
  lemma {:induction false} NestedNotIdempotent()
    ensures RemoveNullVariant(NESTED) == map["anyOf" := JList([TEXT_SCHEMA, NULL_SCHEMA])]
    ensures RemoveNullVariant(RemoveNullVariant(NESTED)) == TEXT_SCHEMA.fields
  {
    NonNullOfPair(JObject(map["anyOf" := JList([TEXT_SCHEMA, NULL_SCHEMA])]));
    NonNullOfPair(TEXT_SCHEMA);
  }

  // ----- the document, rewritten in place

  /** A schema object, which parameters can share. */
  class SchemaObject {
    var fields: Dict

    constructor (fields: Dict)
      ensures this.fields == fields
    {
      this.fields := fields;
    }
  }

  /** A parameter of an operation; none of its own entries is changed, only the schema object it refers to. */
  datatype Parameter = Parameter(location: Json, schema: Option<SchemaObject>)

  function Rewritten(schema: Dict, times: nat): Dict {
    if times == 0 then schema else RemoveNullVariant(Rewritten(schema, times - 1))
  }

  /** The query parameters that refer to the schema object. */
  ghost function Referring(parameters: seq<Parameter>, schema: SchemaObject): set<int> {
    set i | 0 <= i < |parameters| && parameters[i].location == JString("query") && parameters[i].schema == Some(schema)
  }

  lemma {:induction false} OneMoreReferring(parameters: seq<Parameter>, i: nat, schema: SchemaObject)
    requires i < |parameters|
    ensures var (p, before) := (parameters[i], |Referring(parameters[..i], schema)|);
            |Referring(parameters[..i + 1], schema)|
            == before + (if p.location == JString("query") && p.schema == Some(schema) then 1 else 0)
  {
    var (front, p) := (parameters[..i], parameters[i]);
    assert parameters[..i + 1] == front + [p];
    assert Referring(parameters[..i + 1], schema)
        == Referring(front, schema) + (if p.location == JString("query") && p.schema == Some(schema) then {i} else {});
  }

  function Schemas(parameters: seq<Parameter>): set<SchemaObject> {
    set p | p in parameters && p.schema.Some? :: p.schema.value
  }

  /**
   `_strip_query_parameter_nullability` over the parameters of all operations in turn: a schema object
   is rewritten once for every query parameter that refers to it, and the others stay as they are.
   */
  method StripQueryParameterNullability(parameters: seq<Parameter>)
    modifies Schemas(parameters)
    ensures forall o :: o in Schemas(parameters) ==> o.fields == Rewritten(old(o.fields), |Referring(parameters, o)|)
  {
    for i := 0 to |parameters|
      invariant forall o :: o in Schemas(parameters) ==>
                  o.fields == Rewritten(old(o.fields), |Referring(parameters[..i], o)|)
    {
      forall o | o in Schemas(parameters)
        ensures var (p, before) := (parameters[i], |Referring(parameters[..i], o)|);
                |Referring(parameters[..i + 1], o)|
                == before + (if p.location == JString("query") && p.schema == Some(o) then 1 else 0)
      {
        OneMoreReferring(parameters, i, o);
      }
      var p := parameters[i];
      if p.location == JString("query") && p.schema.Some? {
        var schema := p.schema.value;
        schema.fields := RemoveNullVariant(schema.fields);
      }
    }
    assert parameters[..|parameters|] == parameters;
  }

  /** Where the rewrite is idempotent, sharing a parameter or a schema makes no difference. */
  lemma {:induction false} RewrittenOnce(schema: Dict, times: nat)
    requires times > 0 && (Merges(schema) ==> Settled(Merged(schema)))
    ensures Rewritten(schema, times) == RemoveNullVariant(schema)
  {
    if times > 1 {
      RewrittenOnce(schema, times - 1);
      IdempotentExactly(schema);
    } else {
      assert Rewritten(schema, 0) == schema;
    }
  }
}
