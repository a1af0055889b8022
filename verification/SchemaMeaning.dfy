/** The rewrite keeps the meaning of a schema on the instances it is for. */
module SchemaMeaning {
  import opened Common
  import opened Json
  import opened Schema
  import opened SchemaReading

  // ---------------------------------------------------------------- reading less

  /** Asking for less keeps what was valid: exactness may be dropped, and so may unsupported keywords. */
  lemma {:induction false} ReadLess(n: nat, r: Reading, q: Reading, schema: Json, x: Json)
    requires q.defs == r.defs && q.other == r.other && q.matches == r.matches
    requires (q.exact ==> r.exact) && (r.keptOnly ==> q.keptOnly)
    requires ValidIn(n, r, schema, x)
    ensures ValidIn(n, q, schema, x)
    decreases n, 0
  {
    if schema.Obj? {
      var node := schema.members;
      forall key | Get(node, key).Some? && (q.keptOnly ==> Survives(node, key))
        ensures Holds(n - 1, q, node, key, Get(node, key).value, x)
      {
        ReadLessKeyword(n - 1, r, q, node, key, Get(node, key).value, x);
      }
    }
  }

  lemma {:induction false} ReadLessKeyword(
    n: nat, r: Reading, q: Reading, node: Members, key: Text, v: Json, x: Json)
    requires q.defs == r.defs && q.other == r.other && q.matches == r.matches
    requires (q.exact ==> r.exact) && (r.keptOnly ==> q.keptOnly)
    requires Holds(n, r, node, key, v, x)
    ensures Holds(n, q, node, key, v, x)
    decreases n, 1
  {
    if key == AnyOf {
      var s :| Contains(v.items, s) && ValidIn(n, r, s, x);
      ReadLess(n, r, q, s, x);
    } else if key == ItemsWord && x.Arr? {
      forall y | Contains(Tail(node, x.items), y)
        ensures ValidIn(n, q, v, y)
      {
        ReadLess(n, r, q, v, y);
      }
    } else if key == Properties && x.Obj? && v.Obj? {
      forall name | Get(v.members, name).Some? && Get(x.members, name).Some?
        ensures ValidIn(n, q, Get(v.members, name).value, Get(x.members, name).value)
      {
        ReadLess(n, r, q, Get(v.members, name).value, Get(x.members, name).value);
      }
    } else if key == AdditionalProperties && x.Obj? {
      forall name | Get(x.members, name).Some? && IsAdditional(q, node, name)
        ensures ValidIn(n, q, v, Get(x.members, name).value)
      {
        ReadLess(n, r, q, v, Get(x.members, name).value);
      }
    } else if key == Ref {
      ReadLess(n, r, q, Target(r, v).value, x);
    }
  }

  lemma {:induction false} EnumMeans(
    n: nat, r: Reading, q: Reading, clean: Members, node: Members, v: Json, x: Json)
    requires v.Arr? ==> forall i :: Contains(v.items, i) ==> Unchanged(i)
    ensures Holds(n, q, clean, Enum, Sanitize(v), x) <==> Holds(n, r, node, Enum, v, x)
  {
    if v.Arr? {
      EnumUnchanged(v.items, x);
      assert Sanitize(v) == Arr(SanitizeItems(v.items));
    }
  }

  lemma {:induction false} EnumUnchanged(items: Items, x: Json)
    requires forall i :: Contains(items, i) ==> Unchanged(i)
    ensures Listed(SanitizeItems(items), x) <==> Listed(items, x)
  {
    if Listed(SanitizeItems(items), x) {
      var i :| Contains(SanitizeItems(items), i) && Same(i, x);
      ContainsSanitized(items, i);
      var original :| Contains(items, original) && Sanitize(original) == i;
      SameAlike(i, original, x);
    }
    if Listed(items, x) {
      var i :| Contains(items, i) && Same(i, x);
      SanitizedContains(items, i);
      SameAlike(Sanitize(i), i, x);
    }
  }

  lemma {:induction false} TypeUnchanged(v: Json, x: Json)
    ensures TypeAllows(Sanitize(v), x) <==> TypeAllows(v, x)
  {
    if v.Arr? {
      forall t
        ensures Contains(SanitizeItems(v.items), Str(t)) <==> Contains(v.items, Str(t))
      {
        ContainsSanitized(v.items, Str(t));
        if Contains(v.items, Str(t)) {
          SanitizedContains(v.items, Str(t));
        }
      }
    }
  }

  // ---------------------------------------------------------------- the rewrite keeps the meaning

  /** The exact reading of the supported keywords of the original, and the ordinary reading of the rewritten
      schema with its rewritten definitions. */
  ghost predicate Corresponds(r: Reading, q: Reading) {
    && r.exact && r.keptOnly && !q.exact && !q.keptOnly
    && q.defs == SanitizeFields(r.defs) && FitsFields(r.defs)
  }

  /** The rewritten schema accepts exactly the instances that satisfy every supported keyword of the original
      and have, at every object node, exactly the declared properties. */
  lemma {:induction false} RewriteMeans(n: nat, r: Reading, q: Reading, schema: Json, x: Json)
    requires Corresponds(r, q) && Fits(schema)
    ensures ValidIn(n, q, Sanitize(schema), x) <==> ValidIn(n, r, schema, x)
    decreases n, 0
  {
    if schema.Obj? && n > 0 {
      var node := schema.members;
      NodeRewritten(node);
      NodeMeans(n - 1, r, q, SanitizeNode(node), node, x);
    }
  }

  /** `clean` is the rewritten `node`, known only through its keywords. */
  ghost predicate Rewritten(clean: Members, node: Members) {
    && Declared(clean) == SanitizeFields(Declared(node))
    && forall key :: Get(clean, key) == RewrittenValue(node, key)
  }

  lemma {:induction false} NodeRewritten(node: Members)
    ensures Rewritten(SanitizeNode(node), node)
  {
    DeclaredRewritten(node);
    forall key
      ensures Get(SanitizeNode(node), key) == RewrittenValue(node, key)
    {
      GetNode(node, key);
    }
  }

  lemma {:induction false} NodeMeans(n: nat, r: Reading, q: Reading, clean: Members, node: Members, x: Json)
    requires Corresponds(r, q) && Fits(Obj(node)) && Rewritten(clean, node)
    ensures NodeHolds(n, q, clean, x) <==> NodeHolds(n, r, node, x)
    decreases n, 5
  {
    if IsObjectNode(node) {
      ObjectNodeMeans(n, r, q, clean, node, x);
    } else {
      OpenNodeMeans(n, r, q, clean, node, x);
    }
  }

  lemma {:induction false} OpenNodeMeans(n: nat, r: Reading, q: Reading, clean: Members, node: Members, x: Json)
    requires Corresponds(r, q) && Fits(Obj(node)) && !IsObjectNode(node) && Rewritten(clean, node)
    ensures NodeHolds(n, q, clean, x) <==> NodeHolds(n, r, node, x)
    decreases n, 4
  {
    forall key
      ensures Get(clean, key).Some? <==> Get(node, key).Some? && IsSafe(key)
      ensures Get(clean, key).Some? ==>
                (Holds(n, q, clean, key, Get(clean, key).value, x)
                 <==> Holds(n, r, node, key, Get(node, key).value, x))
    {
      if Get(clean, key).Some? {
        KeywordMeans(n, r, q, clean, node, key, x);
      }
    }
  }

  /** At one keyword, the rewritten and the original object node ask the same of `x`. */
  ghost predicate Agrees(n: nat, r: Reading, q: Reading, clean: Members, node: Members, key: Text, x: Json) {
    (Get(clean, key).Some? ==> Holds(n, q, clean, key, Get(clean, key).value, x)) <==>
    (Get(node, key).Some? && Survives(node, key) ==> Holds(n, r, node, key, Get(node, key).value, x))
  }

  lemma {:induction false} ObjectNodeMeans(
    n: nat, r: Reading, q: Reading, clean: Members, node: Members, x: Json)
    requires Corresponds(r, q) && Fits(Obj(node)) && IsObjectNode(node) && Rewritten(clean, node)
    ensures NodeHolds(n, q, clean, x) <==> NodeHolds(n, r, node, x)
    decreases n, 4
  {
    if NodeHolds(n, q, clean, x) {
      ClosedMeansExactly(n, q, clean, node, x);
    }
    if HasExactly(node, x) {
      forall key
        ensures (Get(clean, key).Some? ==> Holds(n, q, clean, key, Get(clean, key).value, x)) <==>
                (Get(node, key).Some? && Survives(node, key) ==> Holds(n, r, node, key, Get(node, key).value, x))
      {
        ObjectKeywordMeans(n, r, q, clean, node, key, x);
      }
    }
  }

  /** `type`, `required` and `additionalProperties` of a closed node together say "exactly these members". */
  lemma {:induction false} ClosedMeansExactly(n: nat, q: Reading, clean: Members, node: Members, x: Json)
    requires IsObjectNode(node) && Rewritten(clean, node) && !q.exact && !q.keptOnly
    requires NodeHolds(n, q, clean, x)
    ensures HasExactly(node, x)
  {
    assert Get(clean, Type).Some? && Get(clean, Required).Some? && Get(clean, AdditionalProperties).Some?;
    assert Holds(n, q, clean, Type, Str(Object), x);
    assert Holds(n, q, clean, Required, Arr(Keys(Declared(node))), x);
    assert Holds(n, q, clean, AdditionalProperties, Bool(false), x);
    forall name
      ensures Get(x.members, name).Some? <==> Get(Declared(node), name).Some?
    {
      KeysContain(Declared(node), name);
      GetFields(Declared(node), name);
      if Get(x.members, name).Some? && Get(Declared(node), name).None? {
        assert IsAdditional(q, clean, name);
      }
    }
  }

  lemma {:induction false} ObjectKeywordMeans(
    n: nat, r: Reading, q: Reading, clean: Members, node: Members, key: Text, x: Json)
    requires Corresponds(r, q) && Fits(Obj(node)) && IsObjectNode(node) && HasExactly(node, x)
    requires Rewritten(clean, node)
    ensures Agrees(n, r, q, clean, node, key, x)
    decreases n, 3
  {
    if key == Type {
      ObjectTypeMeans(n, r, q, clean, node, x);
    } else if key == Properties {
      ObjectPropertiesMean(n, r, q, clean, node, x);
    } else if key == Required {
      ObjectRequiredMeans(n, r, q, clean, node, x);
    } else if key == AdditionalProperties {
      NothingAdditional(n, r, q, clean, node, x);
    } else if Get(node, key).Some? && IsSafe(key) {
      KeywordMeans(n, r, q, clean, node, key, x);
    }
  }

  lemma {:induction false} ObjectTypeMeans(n: nat, r: Reading, q: Reading, clean: Members, node: Members, x: Json)
    requires IsObjectNode(node) && x.Obj? && Rewritten(clean, node)
    ensures Agrees(n, r, q, clean, node, Type, x)
  {
    assert Get(clean, Type) == Some(Str(Object));
  }

  lemma {:induction false} ObjectPropertiesMean(
    n: nat, r: Reading, q: Reading, clean: Members, node: Members, x: Json)
    requires Corresponds(r, q) && Fits(Obj(node)) && IsObjectNode(node) && HasExactly(node, x)
    requires Rewritten(clean, node)
    ensures Agrees(n, r, q, clean, node, Properties, x)
    decreases n, 2
  {
    assert Get(clean, Properties) == Some(Obj(SanitizeFields(Declared(node))));
    var p := Get(node, Properties);
    if p.Some? {
      assert FitsValue(Properties, p.value);
    }
    if p.Some? && p.value.Obj? {
      PropertiesMean(n, r, q, clean, node, Declared(node), x);
    } else {
      assert Declared(node) == Empty && forall name :: Get(SanitizeFields(Empty), name).None?;
    }
  }

  lemma {:induction false} ObjectRequiredMeans(n: nat, r: Reading, q: Reading, clean: Members, node: Members, x: Json)
    requires IsObjectNode(node) && HasExactly(node, x) && Rewritten(clean, node)
    ensures Agrees(n, r, q, clean, node, Required, x)
  {
    assert Get(clean, Required) == Some(Arr(Keys(Declared(node))));
    forall name | Contains(Keys(Declared(node)), Str(name))
      ensures Get(x.members, name).Some?
    {
      KeysContain(Declared(node), name);
    }
  }

  lemma {:induction false} NothingAdditional(n: nat, r: Reading, q: Reading, clean: Members, node: Members, x: Json)
    requires HasExactly(node, x) && Declared(clean) == SanitizeFields(Declared(node))
    ensures Agrees(n, r, q, clean, node, AdditionalProperties, x)
  {
    forall name | Get(x.members, name).Some?
      ensures !IsAdditional(q, clean, name) && !IsAdditional(r, node, name)
    {
      GetFields(Declared(node), name);
    }
  }

  lemma {:induction false} PropertiesMean(
    n: nat, r: Reading, q: Reading, clean: Members, node: Members, fields: Members, x: Json)
    requires Corresponds(r, q) && FitsFields(fields)
    ensures Holds(n, q, clean, Properties, Obj(SanitizeFields(fields)), x)
       <==> Holds(n, r, node, Properties, Obj(fields), x)
    decreases n, 1
  {
    if x.Obj? {
      forall name
        ensures Get(SanitizeFields(fields), name).Some? <==> Get(fields, name).Some?
        ensures Get(fields, name).Some? && Get(x.members, name).Some? ==>
                  (ValidIn(n, q, Get(SanitizeFields(fields), name).value, Get(x.members, name).value)
                   <==> ValidIn(n, r, Get(fields, name).value, Get(x.members, name).value))
      {
        GetFields(fields, name);
        if Get(fields, name).Some? && Get(x.members, name).Some? {
          RewriteMeans(n, r, q, Get(fields, name).value, Get(x.members, name).value);
        }
      }
    }
  }

  /** A keyword that the rewrite keeps, outside the four that closing a node sets. */
  lemma {:induction false} KeywordMeans(
    n: nat, r: Reading, q: Reading, clean: Members, node: Members, key: Text, x: Json)
    requires Corresponds(r, q) && Fits(Obj(node)) && Get(node, key).Some? && IsSafe(key)
    requires Rewritten(clean, node)
    requires IsObjectNode(node) ==> !(key.Type? || key.Properties? || key.AdditionalProperties?)
    ensures Holds(n, q, clean, key, SanitizeValue(key, Get(node, key).value), x)
       <==> Holds(n, r, node, key, Get(node, key).value, x)
    decreases n, 2
  {
    var v := Get(node, key).value;
    assert FitsValue(key, v);
    match key
    case Type => TypeUnchanged(v, x);
    case Const => SameAlike(Sanitize(v), v, x);
    case Enum => EnumMeans(n, r, q, clean, node, v, x);
    case AnyOf => AnyOfMeans(n, r, q, clean, node, v, x);
    case ItemsWord => ItemsMean(n, r, q, clean, node, v, x);
    case AdditionalProperties => OpenAdditionalMeans(n, r, q, clean, node, v, x);
    case Ref => RefMeans(n, r, q, clean, node, v, x);
    case _ =>
  }

  lemma {:induction false} RefMeans(
    n: nat, r: Reading, q: Reading, clean: Members, node: Members, v: Json, x: Json)
    requires Corresponds(r, q)
    ensures Holds(n, q, clean, Ref, Sanitize(v), x) <==> Holds(n, r, node, Ref, v, x)
    decreases n, 1
  {
    if v.Str? && v.s.DefRef? {
      GetFields(r.defs, v.s.name);
      if Target(r, v).Some? {
        RewriteMeans(n, r, q, Target(r, v).value, x);
      }
    }
  }

  lemma {:induction false} ItemsMean(
    n: nat, r: Reading, q: Reading, clean: Members, node: Members, v: Json, x: Json)
    requires Corresponds(r, q) && Fits(v)
    requires Get(clean, PrefixItems).None? && (v == Bool(true) || !HasPrefix(node))
    ensures Holds(n, q, clean, ItemsWord, Sanitize(v), x) <==> Holds(n, r, node, ItemsWord, v, x)
    decreases n, 1
  {
    if x.Arr? && v != Bool(true) {
      forall y | Contains(x.items, y)
        ensures ValidIn(n, q, Sanitize(v), y) <==> ValidIn(n, r, v, y)
      {
        RewriteMeans(n, r, q, v, y);
      }
    }
  }

  lemma {:induction false} AnyOfMeans(
    n: nat, r: Reading, q: Reading, clean: Members, node: Members, v: Json, x: Json)
    requires Corresponds(r, q) && FitsValue(AnyOf, v)
    ensures Holds(n, q, clean, AnyOf, Sanitize(v), x) <==> Holds(n, r, node, AnyOf, v, x)
    decreases n, 1
  {
    if v.Arr? {
      if s :| Contains(SanitizeItems(v.items), s) && ValidIn(n, q, s, x) {
        ContainsSanitized(v.items, s);
        var original :| Contains(v.items, original) && Sanitize(original) == s;
        RewriteMeans(n, r, q, original, x);
      }
      if s :| Contains(v.items, s) && ValidIn(n, r, s, x) {
        SanitizedContains(v.items, s);
        RewriteMeans(n, r, q, s, x);
      }
    }
  }

  lemma {:induction false} OpenAdditionalMeans(
    n: nat, r: Reading, q: Reading, clean: Members, node: Members, v: Json, x: Json)
    requires Corresponds(r, q) && NodeFits(node) && !IsObjectNode(node) && Rewritten(clean, node)
    requires Get(node, AdditionalProperties) == Some(v) && Fits(v)
    ensures Holds(n, q, clean, AdditionalProperties, Sanitize(v), x)
       <==> Holds(n, r, node, AdditionalProperties, v, x)
    decreases n, 1
  {
    if x.Obj? && v != Bool(true) {
      forall name | Get(x.members, name).Some?
        ensures IsAdditional(q, clean, name) <==> IsAdditional(r, node, name)
        ensures ValidIn(n, q, Sanitize(v), Get(x.members, name).value)
           <==> ValidIn(n, r, v, Get(x.members, name).value)
      {
        RewriteMeans(n, r, q, v, Get(x.members, name).value);
      }
    }
  }

  // ---------------------------------------------------------------- for whole schemas

  lemma {:induction false} DefsOfRewrite(schema: Json)
    ensures DefsOf(Sanitize(schema)) == SanitizeFields(DefsOf(schema))
  {
    if schema.Obj? {
      GetNode(schema.members, Defs);
      var d := Get(schema.members, Defs);
      if d.Some? && !d.value.Obj? {
        assert !Sanitize(d.value).Obj?;
      }
    }
  }

  lemma {:induction false} FitsDefs(schema: Json)
    requires Fits(schema)
    ensures FitsFields(DefsOf(schema))
  {
    if schema.Obj? && Get(schema.members, Defs).Some? {
      assert FitsValue(Defs, Get(schema.members, Defs).value);
    }
  }

  /** The rewritten schema means: every keyword that survives, and exactly the declared properties. */
  lemma {:induction false} RewriteCharacterised(
    schema: Json, other: (Text, Json, Json) -> bool, matches: (Json, Text) -> bool, x: Json)
    requires Fits(schema)
    ensures Valid(Ordinary(Sanitize(schema), other, matches), Sanitize(schema), x)
       <==> Valid(Kept(schema, other, matches), schema, x)
  {
    var r, q := Kept(schema, other, matches), Ordinary(Sanitize(schema), other, matches);
    DefsOfRewrite(schema);
    FitsDefs(schema);
    forall n: nat
      ensures ValidIn(n, q, Sanitize(schema), x) <==> ValidIn(n, r, schema, x)
    {
      RewriteMeans(n, r, q, schema, x);
    }
  }

  /** The rewrite preserves meaning: an instance that is valid for the original schema, with exactly the
      declared properties at every object node, is valid for the rewritten schema. */
  lemma {:induction false} MeaningPreserved(
    schema: Json, other: (Text, Json, Json) -> bool, matches: (Json, Text) -> bool, x: Json)
    requires Fits(schema)
    requires Valid(Exactly(schema, other, matches), schema, x)
    ensures Valid(Ordinary(schema, other, matches), schema, x)
    ensures Valid(Ordinary(Sanitize(schema), other, matches), Sanitize(schema), x)
  {
    var n: nat :| ValidIn(n, Exactly(schema, other, matches), schema, x);
    ReadLess(n, Exactly(schema, other, matches), Ordinary(schema, other, matches), schema, x);
    ReadLess(n, Exactly(schema, other, matches), Kept(schema, other, matches), schema, x);
    RewriteCharacterised(schema, other, matches, x);
  }

  // ---------------------------------------------------------------- schemas of the supported keywords only

  /** The nine keywords that the provider supports. */
  predicate Nine(key: Text) {
    match key
    case Defs => true
    case Ref => true
    case AdditionalProperties => true
    case AnyOf => true
    case Const => true
    case Enum => true
    case ItemsWord => true
    case Properties => true
    case Type => true
    case _ => false
  }

  /** Every node uses these only, and an object node with a type admits objects by it. */
  ghost predicate Supported(schema: Json)
    decreases Size(schema), 1
  {
    schema.Obj? ==>
      var node := schema.members;
      && (IsObjectNode(node) && Get(node, Type).Some? ==> TypeAllows(Get(node, Type).value, Obj(Empty)))
      && forall key :: Get(node, key).Some? ==>
           Nine(key) && (GetIsSmaller(node, key); SupportedValue(key, Get(node, key).value))
  }

  ghost predicate SupportedValue(key: Text, v: Json)
    decreases Size(v), 2
  {
    if key == Properties || key == Defs then v.Obj? ==> SupportedFields(v.members)
    else if key == AnyOf then
      v.Arr? ==> forall s :: Contains(v.items, s) ==> (ContainedIsSmaller(v.items, s); Supported(s))
    else if key == ItemsWord || key == AdditionalProperties then Supported(v)
    else true
  }

  ghost predicate SupportedFields(fields: Members)
    decreases SizeMembers(fields), 0
  {
    forall name :: Get(fields, name).Some? ==>
      (GetIsSmaller(fields, name); Supported(Get(fields, name).value))
  }

  /** The kept and the whole reading of the same definitions. */
  ghost predicate SameBut(r: Reading, q: Reading) {
    && q.defs == r.defs && q.other == r.other && q.matches == r.matches
    && r.exact && q.exact && r.keptOnly && !q.keptOnly && SupportedFields(r.defs)
  }

  /** On such schemas the keywords that the rewrite keeps are all there are. */
  lemma {:induction false} ReadAll(n: nat, r: Reading, q: Reading, schema: Json, x: Json)
    requires SameBut(r, q) && Supported(schema) && ValidIn(n, r, schema, x)
    ensures ValidIn(n, q, schema, x)
    decreases n, 0
  {
    if schema.Obj? {
      var node := schema.members;
      forall key | Get(node, key).Some?
        ensures Holds(n - 1, q, node, key, Get(node, key).value, x)
      {
        assert Nine(key) && SupportedValue(key, Get(node, key).value);
        if key == Type && IsObjectNode(node) {
          TypeAllowsObject(Get(node, Type).value, x);
        } else {
          assert Survives(node, key);
          ReadAllKeyword(n - 1, r, q, node, key, Get(node, key).value, x);
        }
      }
    }
  }

  /** Whether a type admits objects does not depend on the members. */
  lemma {:induction false} TypeAllowsObject(v: Json, x: Json)
    requires x.Obj? && TypeAllows(v, Obj(Empty))
    ensures TypeAllows(v, x)
  {
    if v.Arr? {
      var t :| Contains(v.items, Str(t)) && HasType(Obj(Empty), t);
      assert HasType(x, t);
    }
  }

  lemma {:induction false} ReadAllKeyword(
    n: nat, r: Reading, q: Reading, node: Members, key: Text, v: Json, x: Json)
    requires SameBut(r, q) && SupportedValue(key, v) && Holds(n, r, node, key, v, x)
    ensures Holds(n, q, node, key, v, x)
    decreases n, 1
  {
    if key == AnyOf {
      var s :| Contains(v.items, s) && ValidIn(n, r, s, x);
      ReadAll(n, r, q, s, x);
    } else if key == ItemsWord && x.Arr? {
      forall y | Contains(Tail(node, x.items), y)
        ensures ValidIn(n, q, v, y)
      {
        ReadAll(n, r, q, v, y);
      }
    } else if key == Properties && x.Obj? && v.Obj? {
      forall name | Get(v.members, name).Some? && Get(x.members, name).Some?
        ensures ValidIn(n, q, Get(v.members, name).value, Get(x.members, name).value)
      {
        ReadAll(n, r, q, Get(v.members, name).value, Get(x.members, name).value);
      }
    } else if key == AdditionalProperties && x.Obj? {
      forall name | Get(x.members, name).Some? && IsAdditional(q, node, name)
        ensures ValidIn(n, q, v, Get(x.members, name).value)
      {
        ReadAll(n, r, q, v, Get(x.members, name).value);
      }
    } else if key == Ref {
      ReadAll(n, r, q, Target(r, v).value, x);
    }
  }

  /** A schema of the nine keywords only keeps its exact meaning in both directions. */
  lemma {:induction false} SupportedKeepsMeaning(
    schema: Json, other: (Text, Json, Json) -> bool, matches: (Json, Text) -> bool, x: Json)
    requires Fits(schema) && Supported(schema)
    ensures Valid(Ordinary(Sanitize(schema), other, matches), Sanitize(schema), x)
       <==> Valid(Exactly(schema, other, matches), schema, x)
  {
    var r, q := Kept(schema, other, matches), Exactly(schema, other, matches);
    RewriteCharacterised(schema, other, matches, x);
    SupportedDefs(schema);
    if n: nat :| ValidIn(n, q, schema, x) {
      ReadLess(n, q, r, schema, x);
    }
    if n: nat :| ValidIn(n, r, schema, x) {
      ReadAll(n, r, q, schema, x);
    }
  }

  lemma {:induction false} SupportedDefs(schema: Json)
    requires Supported(schema)
    ensures SupportedFields(DefsOf(schema))
  {
    if schema.Obj? && Get(schema.members, Defs).Some? {
      assert SupportedValue(Defs, Get(schema.members, Defs).value);
    }
  }
}
