/** What a schema means. Keywords are read as in JSON Schema 2020-12: `required` by section 6.5.3 of the Validation
    part, `additionalProperties` by section 10.3.2.3 of the Core part. */
module SchemaReading {
  import opened Common
  import opened Json
  import opened Schema

  /** How a schema is read.
      `defs` are the definitions that `$ref` names. `other` says what every keyword outside the modelled ones
      means, and `matches` which names a `patternProperties` value covers; both are arbitrary.
      With `exact`, an object node asks for exactly its declared properties. With `keptOnly`, the keywords
      that the rewrite drops or replaces are ignored. */
  datatype Reading = Reading(
    defs: Members,
    other: (Text, Json, Json) -> bool,
    matches: (Json, Text) -> bool,
    exact: bool,
    keptOnly: bool)

  /** The definition that a reference names. */
  ghost function Target(r: Reading, v: Json): Option<Json> {
    if v.Str? && v.s.DefRef? then Get(r.defs, v.s.name) else None
  }

  ghost predicate HasType(x: Json, t: Text) {
    match x
    case Null => t == Other("null")
    case Bool(_) => t == Other("boolean")
    case Num(n) => t == Other("number") || (t == Other("integer") && n == n.Floor as real)
    case Str(_) => t == Other("string")
    case Arr(_) => t == Other("array")
    case Obj(_) => t == Object
  }

  ghost predicate TypeAllows(v: Json, x: Json) {
    match v
    case Str(t) => HasType(x, t)
    case Arr(ts) => exists t :: Contains(ts, Str(t)) && HasType(x, t)
    case _ => false
  }

  /** The value is one of the list. */
  ghost predicate Listed(items: Items, x: Json) {
    exists i :: Contains(items, i) && Same(i, x)
  }

  function Drop(items: Items, prefix: Items): Items {
    if items.Cons? && prefix.Cons? then Drop(items.tail, prefix.tail) else items
  }

  /** The elements that `items` speaks of: those after the ones that `prefixItems` describes. */
  ghost function Tail(node: Members, x: Items): Items {
    match Get(node, PrefixItems)
    case Some(Arr(prefix)) => Drop(x, prefix)
    case _ => x
  }

  /** The members that `additionalProperties` speaks of. */
  ghost predicate IsAdditional(r: Reading, node: Members, name: Text) {
    && Get(Declared(node), name).None?
    && (Get(node, PatternProperties).Some? ==> !r.matches(Get(node, PatternProperties).value, name))
  }

  /** The instance is an object with exactly the declared properties. */
  ghost predicate HasExactly(node: Members, x: Json) {
    x.Obj? && forall name :: Get(x.members, name).Some? <==> Get(Declared(node), name).Some?
  }

  /** Keywords whose demand the rewrite keeps: the supported ones, except that an object node always gets the
      type `object`, which asking for exactly its properties implies. */
  ghost predicate Survives(node: Members, key: Text) {
    IsSafe(key) && !(key == Type && IsObjectNode(node))
  }

  /** `x` is valid for `schema` when at most `n` schemas are entered one inside the other, references
      included. */
  ghost predicate ValidIn(n: nat, r: Reading, schema: Json, x: Json)
    decreases n, 0
  {
    match schema
    case Bool(b) => b
    case Obj(node) => n > 0 && NodeHolds(n - 1, r, node, x)
    case _ => false
  }

  ghost predicate NodeHolds(n: nat, r: Reading, node: Members, x: Json)
    decreases n, 2
  {
    && (r.exact && IsObjectNode(node) ==> HasExactly(node, x))
    && forall key :: Get(node, key).Some? && (r.keptOnly ==> Survives(node, key)) ==>
         Holds(n, r, node, key, Get(node, key).value, x)
  }

  ghost predicate Holds(n: nat, r: Reading, node: Members, key: Text, v: Json, x: Json)
    decreases n, 1
  {
    match key
    case Type => TypeAllows(v, x)
    case Const => Same(v, x)
    case Enum => v.Arr? && Listed(v.items, x)
    case AnyOf => v.Arr? && exists s :: Contains(v.items, s) && ValidIn(n, r, s, x)
    case ItemsWord => x.Arr? ==> forall y :: Contains(Tail(node, x.items), y) ==> ValidIn(n, r, v, y)
    case Properties =>
      x.Obj? && v.Obj? ==>
        forall name :: Get(v.members, name).Some? && Get(x.members, name).Some? ==>
          ValidIn(n, r, Get(v.members, name).value, Get(x.members, name).value)
    case AdditionalProperties =>
      x.Obj? ==>
        forall name :: Get(x.members, name).Some? && IsAdditional(r, node, name) ==>
          ValidIn(n, r, v, Get(x.members, name).value)
    case Required =>
      x.Obj? && v.Arr? ==> forall name :: Contains(v.items, Str(name)) ==> Get(x.members, name).Some?
    case Ref => Target(r, v).Some? && ValidIn(n, r, Target(r, v).value, x)
    case Defs => true
    case _ => r.other(key, v, x)
  }

  /** `x` is valid for `schema`: some depth is enough. */
  ghost predicate Valid(r: Reading, schema: Json, x: Json) {
    exists n: nat :: ValidIn(n, r, schema, x)
  }

  /** The definitions of a whole schema. */
  ghost function DefsOf(schema: Json): Members {
    if !schema.Obj? then Empty
    else
      match Get(schema.members, Defs)
      case Some(Obj(fields)) => fields
      case _ => Empty
  }

  /** The ordinary, the exact, and the exact-and-supported reading of a schema against its own definitions. */
  ghost function Ordinary(schema: Json, other: (Text, Json, Json) -> bool, matches: (Json, Text) -> bool)
    : Reading
  {
    Reading(DefsOf(schema), other, matches, false, false)
  }

  ghost function Exactly(schema: Json, other: (Text, Json, Json) -> bool, matches: (Json, Text) -> bool)
    : Reading
  {
    Reading(DefsOf(schema), other, matches, true, false)
  }

  ghost function Kept(schema: Json, other: (Text, Json, Json) -> bool, matches: (Json, Text) -> bool)
    : Reading
  {
    Reading(DefsOf(schema), other, matches, true, true)
  }

  // ---------------------------------------------------------------- schemas the rewrite is faithful to

  /** The rewrite leaves the value as it is, up to the order of keys. */
  ghost predicate Unchanged(v: Json) { Same(Sanitize(v), v) }

  ghost predicate HasPrefix(node: Members) {
    match Get(node, PrefixItems)
    case Some(Arr(prefix)) => prefix.Cons?
    case _ => false
  }

  /** The side conditions of one node: constants that the rewrite leaves as they are, no pattern next to an
      `additionalProperties` that asks for something, and no prefix next to such an `items`. */
  ghost predicate NodeFits(node: Members) {
    && (Get(node, Const).Some? ==> Unchanged(Get(node, Const).value))
    && (Get(node, Enum).Some? && Get(node, Enum).value.Arr? ==>
          forall i :: Contains(Get(node, Enum).value.items, i) ==> Unchanged(i))
    && (Get(node, AdditionalProperties).Some? && !IsObjectNode(node) ==>
          Get(node, AdditionalProperties).value == Bool(true) || Get(node, PatternProperties).None?)
    && (Get(node, ItemsWord).Some? ==> Get(node, ItemsWord).value == Bool(true) || !HasPrefix(node))
  }

  /** Every node that is read as a schema fits. */
  ghost predicate Fits(schema: Json)
    decreases Size(schema), 1
  {
    schema.Obj? ==>
      && NodeFits(schema.members)
      && forall key :: Get(schema.members, key).Some? ==>
           (GetIsSmaller(schema.members, key); FitsValue(key, Get(schema.members, key).value))
  }

  ghost predicate FitsValue(key: Text, v: Json)
    decreases Size(v), 2
  {
    if key == Properties || key == Defs then v.Obj? ==> FitsFields(v.members)
    else if key == AnyOf then v.Arr? ==> forall s :: Contains(v.items, s) ==> (ContainedIsSmaller(v.items, s); Fits(s))
    else if key == ItemsWord || key == AdditionalProperties then Fits(v)
    else true
  }

  ghost predicate FitsFields(fields: Members)
    decreases SizeMembers(fields), 0
  {
    forall name :: Get(fields, name).Some? ==>
      (GetIsSmaller(fields, name); Fits(Get(fields, name).value))
  }
}
