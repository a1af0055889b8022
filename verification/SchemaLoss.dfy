/** Where the rewrite of a schema loses instances: the side conditions of the preservation theorem, each with the
    exact condition for the schemas that consist of little else. */
module SchemaLoss {
  import opened Common
  import opened Json
  import opened Schema
  import opened SchemaReading
  import opened SchemaMeaning

  /** The rewrite keeps every instance of the schema that has exactly the declared properties. */
  ghost predicate Preserves(schema: Json, other: (Text, Json, Json) -> bool, matches: (Json, Text) -> bool) {
    forall x :: Valid(Exactly(schema, other, matches), schema, x) ==>
                Valid(Ordinary(Sanitize(schema), other, matches), Sanitize(schema), x)
  }

  /** A schema that is one `const` or one `enum`. */
  ghost function Only(key: Text, v: Json): Json { Obj(Member(key, v, Empty)) }

  /** What one `const` or one `enum` asks. */
  ghost predicate Asks(key: Text, v: Json, x: Json) {
    if key == Const then Same(v, x) else v.Arr? && Listed(v.items, x)
  }

  lemma {:induction false} OnlyKey(key: Text, v: Json, k: Text)
    ensures Get(Member(key, v, Empty), k) == if k == key then Some(v) else None
  {
  }

  lemma {:induction false} OnlyMeans(r: Reading, key: Text, v: Json, x: Json)
    requires key == Const || key == Enum
    ensures Valid(r, Only(key, v), x) <==> Asks(key, v, x)
  {
    if n: nat :| ValidIn(n, r, Only(key, v), x) {
      OnlyHolds(n - 1, r, key, v, x);
    }
    OnlyHolds(0, r, key, v, x);
    assert ValidIn(1, r, Only(key, v), x) <==> NodeHolds(0, r, Member(key, v, Empty), x);
  }

  lemma {:induction false} OnlyHolds(n: nat, r: Reading, key: Text, v: Json, x: Json)
    requires key == Const || key == Enum
    ensures NodeHolds(n, r, Member(key, v, Empty), x) <==> Asks(key, v, x)
  {
    var node := Member(key, v, Empty);
    forall k
      ensures Get(node, k) == if k == key then Some(v) else None
    {
      OnlyKey(key, v, k);
    }
    assert Get(node, key) == Some(v) && Get(node, Type).None? && Get(node, Properties).None?;
    assert Survives(node, key) && (Holds(n, r, node, key, v, x) <==> Asks(key, v, x));
  }

  lemma {:induction false} OnlyRewritten(key: Text, v: Json)
    requires key == Const || key == Enum
    ensures Sanitize(Only(key, v)) == Only(key, Sanitize(v))
  {
    var node := Member(key, v, Empty);
    OnlyKey(key, v, Type);
    OnlyKey(key, v, Properties);
    assert Keep(node.rest) == Empty;
    assert SanitizeValue(key, v) == Sanitize(v);
    assert Keep(node) == Member(key, Sanitize(v), Empty);
  }

  /** A `const` keeps its meaning if and only if the rewrite leaves its value as it is. */
  lemma {:induction false} ConstPreservedIff(
    v: Json, other: (Text, Json, Json) -> bool, matches: (Json, Text) -> bool)
    ensures Preserves(Only(Const, v), other, matches) <==> Unchanged(v)
  {
    var schema := Only(Const, v);
    var r, q := Exactly(schema, other, matches), Ordinary(Sanitize(schema), other, matches);
    OnlyRewritten(Const, v);
    SameReflexive(v);
    OnlyMeans(r, Const, v, v);
    OnlyMeans(q, Const, Sanitize(v), v);
    if Unchanged(v) {
      forall x | Valid(r, schema, x)
        ensures Valid(q, Sanitize(schema), x)
      {
        OnlyMeans(r, Const, v, x);
        OnlyMeans(q, Const, Sanitize(v), x);
        SameAlike(Sanitize(v), v, x);
      }
    }
  }

  /** An `enum` keeps its meaning if and only if every value is what the rewrite makes of some value. */
  lemma {:induction false} EnumPreservedIff(
    items: Items, other: (Text, Json, Json) -> bool, matches: (Json, Text) -> bool)
    ensures Preserves(Only(Enum, Arr(items)), other, matches) <==>
              forall i :: Contains(items, i) ==> Remains(items, i)
  {
    if Preserves(Only(Enum, Arr(items)), other, matches) {
      forall i | Contains(items, i)
        ensures Remains(items, i)
      {
        EnumValueRemains(items, i, other, matches);
      }
    }
    if forall i :: Contains(items, i) ==> Remains(items, i) {
      EnumPreserved(items, other, matches);
    }
  }

  lemma {:induction false} EnumValueRemains(
    items: Items, i: Json, other: (Text, Json, Json) -> bool, matches: (Json, Text) -> bool)
    requires Preserves(Only(Enum, Arr(items)), other, matches) && Contains(items, i)
    ensures Remains(items, i)
  {
    var schema := Only(Enum, Arr(items));
    SameReflexive(i);
    assert Listed(items, i);
    EnumMeaning(items, Exactly(schema, other, matches), Ordinary(Sanitize(schema), other, matches), i);
  }

  lemma {:induction false} EnumPreserved(
    items: Items, other: (Text, Json, Json) -> bool, matches: (Json, Text) -> bool)
    requires forall i :: Contains(items, i) ==> Remains(items, i)
    ensures Preserves(Only(Enum, Arr(items)), other, matches)
  {
    var schema := Only(Enum, Arr(items));
    var r, q := Exactly(schema, other, matches), Ordinary(Sanitize(schema), other, matches);
    forall x | Valid(r, schema, x)
      ensures Valid(q, Sanitize(schema), x)
    {
      EnumMeaning(items, r, q, x);
      ListedRemains(items, x);
    }
  }

  lemma {:induction false} ListedRemains(items: Items, x: Json)
    requires Listed(items, x) && forall i :: Contains(items, i) ==> Remains(items, i)
    ensures Remains(items, x)
  {
    var i :| Contains(items, i) && Same(i, x);
    assert Remains(items, i);
    var j :| Contains(items, j) && Same(Sanitize(j), i);
    SameTransitive(Sanitize(j), i, x);
  }

  lemma {:induction false} EnumMeaning(items: Items, r: Reading, q: Reading, x: Json)
    ensures Valid(r, Only(Enum, Arr(items)), x) <==> Listed(items, x)
    ensures Valid(q, Sanitize(Only(Enum, Arr(items))), x) <==> Remains(items, x)
  {
    OnlyRewritten(Enum, Arr(items));
    assert Sanitize(Arr(items)) == Arr(SanitizeItems(items));
    OnlyMeans(r, Enum, Arr(items), x);
    OnlyMeans(q, Enum, Arr(SanitizeItems(items)), x);
    RemainsIff(items, x);
  }

  /** The rewrite makes the value of some value of the list. */
  ghost predicate Remains(items: Items, x: Json) {
    exists j :: Contains(items, j) && Same(Sanitize(j), x)
  }

  lemma {:induction false} RemainsIff(items: Items, x: Json)
    ensures Remains(items, x) <==> Listed(SanitizeItems(items), x)
  {
    if Listed(SanitizeItems(items), x) {
      var i :| Contains(SanitizeItems(items), i) && Same(i, x);
      ContainsSanitized(items, i);
    }
    if Remains(items, x) {
      var j :| Contains(items, j) && Same(Sanitize(j), x);
      SanitizedContains(items, j);
    }
  }

  /** For instance, a dictionary with an unsupported name is emptied. */
  lemma {:induction false} DictionaryConstantsAreLost(
    name: Text, y: Json, other: (Text, Json, Json) -> bool, matches: (Json, Text) -> bool)
    requires !IsSafe(name)
    ensures !Preserves(Only(Const, Obj(Member(name, y, Empty))), other, matches)
  {
    var node := Member(name, y, Empty);
    OnlyKey(name, y, Type);
    OnlyKey(name, y, Properties);
    assert Keep(node) == Keep(node.rest) == Empty;
    assert Sanitize(Obj(node)) == Obj(Empty);
    assert Get(node, name).Some? && Get(Empty, name).None?;
    ConstPreservedIff(Obj(node), other, matches);
  }

  /** A node of two keywords, neither of which makes it an object node. */
  ghost function Pair(k: Text, v: Json, l: Text, w: Json): Members { Member(k, v, Member(l, w, Empty)) }

  /** The rewrite of a pair keeps the second keyword, drops the first, and declares nothing. */
  lemma {:induction false} PairRewritten(k: Text, v: Json, l: Text, b: bool)
    requires k == PrefixItems || k == PatternProperties
    requires l == ItemsWord || l == AdditionalProperties
    ensures SanitizeNode(Pair(k, v, l, Bool(b))) == Member(l, Bool(b), Empty)
    ensures Get(Pair(k, v, l, Bool(b)), k) == Some(v)
    ensures Get(SanitizeNode(Pair(k, v, l, Bool(b))), l) == Some(Bool(b))
    ensures Get(SanitizeNode(Pair(k, v, l, Bool(b))), k) == None
    ensures Declared(Pair(k, v, l, Bool(b))) == Declared(SanitizeNode(Pair(k, v, l, Bool(b)))) == Empty
  {
    var node, rest := Pair(k, v, l, Bool(b)), Member(l, Bool(b), Empty);
    OnlyKey(l, Bool(b), Type);
    OnlyKey(l, Bool(b), Properties);
    OnlyKey(l, Bool(b), k);
    OnlyKey(l, Bool(b), l);
    assert SanitizeValue(l, Bool(b)) == Bool(b);
    assert Keep(rest) == Member(l, Bool(b), Keep(rest.rest)) == rest;
    assert Keep(node) == Keep(rest);
    assert !IsObjectNode(node);
  }

  /** What a pair asks whose second keyword allows nothing: its first keyword, and nothing for the second to speak
      of. */
  lemma {:induction false} PairMeans(r: Reading, k: Text, v: Json, l: Text, x: Json)
    requires (k == PrefixItems && l == ItemsWord) || (k == PatternProperties && l == AdditionalProperties)
    requires !r.keptOnly
    ensures var node := Pair(k, v, l, Bool(false));
            Valid(r, Obj(node), x) <==> r.other(k, v, x) && Nothing(r, node, l, x)
  {
    var node := Pair(k, v, l, Bool(false));
    forall key
      ensures Get(node, key) == if key == k then Some(v) else if key == l then Some(Bool(false)) else None
    {
      OnlyKey(l, Bool(false), key);
    }
    if n: nat :| ValidIn(n, r, Obj(node), x) {
      PairNodeMeans(n - 1, r, node, k, v, l, x);
    }
    PairNodeMeans(0, r, node, k, v, l, x);
    assert ValidIn(1, r, Obj(node), x) <==> NodeHolds(0, r, node, x);
  }

  /** There is nothing in `x` that the keyword speaks of. */
  ghost predicate Nothing(r: Reading, node: Members, key: Text, x: Json) {
    if key == ItemsWord then x.Arr? ==> Tail(node, x.items) == Nil
    else x.Obj? ==> forall name :: Get(x.members, name).Some? ==> !IsAdditional(r, node, name)
  }

  lemma {:induction false} PairNodeMeans(
    n: nat, r: Reading, node: Members, k: Text, v: Json, l: Text, x: Json)
    requires (k == PrefixItems && l == ItemsWord) || (k == PatternProperties && l == AdditionalProperties)
    requires !r.keptOnly
    requires forall key :: Get(node, key) == if key == k then Some(v) else if key == l then Some(Bool(false)) else None
    ensures NodeHolds(n, r, node, x) <==> r.other(k, v, x) && Nothing(r, node, l, x)
  {
    assert Get(node, Type).None? && Get(node, Properties).None?;
    assert Get(node, k) == Some(v) && Get(node, l) == Some(Bool(false));
    assert Holds(n, r, node, k, v, x) <==> r.other(k, v, x);
    NothingHolds(n, r, node, l, x);
  }

  lemma {:induction false} NothingHolds(n: nat, r: Reading, node: Members, key: Text, x: Json)
    requires key == ItemsWord || key == AdditionalProperties
    ensures Holds(n, r, node, key, Bool(false), x) <==> Nothing(r, node, key, x)
  {
    if key == ItemsWord && x.Arr? {
      var items := Tail(node, x.items);
      assert items.Cons? ==> Contains(items, items.head);
      assert forall y :: !ValidIn(n, r, Bool(false), y);
    }
  }

  /** The rewritten pair is its second keyword alone. */
  lemma {:induction false} RestMeans(r: Reading, l: Text, x: Json)
    requires (l == ItemsWord || l == AdditionalProperties) && !r.keptOnly
    ensures Valid(r, Only(l, Bool(false)), x) <==> Nothing(r, Member(l, Bool(false), Empty), l, x)
  {
    var node := Member(l, Bool(false), Empty);
    if n: nat :| ValidIn(n, r, Obj(node), x) {
      RestNodeMeans(n - 1, r, l, x);
    }
    RestNodeMeans(0, r, l, x);
    assert ValidIn(1, r, Obj(node), x) <==> NodeHolds(0, r, node, x);
  }

  lemma {:induction false} RestNodeMeans(n: nat, r: Reading, l: Text, x: Json)
    requires (l == ItemsWord || l == AdditionalProperties) && !r.keptOnly
    ensures var node := Member(l, Bool(false), Empty); NodeHolds(n, r, node, x) <==> Nothing(r, node, l, x)
  {
    var node := Member(l, Bool(false), Empty);
    forall key
      ensures Get(node, key) == if key == l then Some(Bool(false)) else None
    {
      OnlyKey(l, Bool(false), key);
    }
    assert Get(node, Type).None? && Get(node, Properties).None? && Get(node, l) == Some(Bool(false));
    NothingHolds(n, r, node, l, x);
  }

  /** Dropping `prefixItems` beside a closed `items` keeps the meaning if and only if no nonempty array that the
      prefix covers completely is accepted by `prefixItems`. */
  lemma {:induction false} PrefixPreservedIff(
    prefix: Json, other: (Text, Json, Json) -> bool, matches: (Json, Text) -> bool)
    ensures Preserves(Obj(Pair(PrefixItems, prefix, ItemsWord, Bool(false))), other, matches) <==>
              forall items: Items :: items.Cons? && Covered(prefix, items) ==> !other(PrefixItems, prefix, Arr(items))
  {
    var node := Pair(PrefixItems, prefix, ItemsWord, Bool(false));
    var schema := Obj(node);
    var r, q := Exactly(schema, other, matches), Ordinary(Sanitize(schema), other, matches);
    PairRewritten(PrefixItems, prefix, ItemsWord, false);
    assert Sanitize(schema) == Only(ItemsWord, Bool(false));
    forall x
      ensures Valid(r, schema, x) <==>
                other(PrefixItems, prefix, x) && (x.Arr? ==> x.items == Nil || Covered(prefix, x.items))
      ensures Valid(q, Sanitize(schema), x) <==> (x.Arr? ==> x.items == Nil)
    {
      PairMeans(r, PrefixItems, prefix, ItemsWord, x);
      RestMeans(q, ItemsWord, x);
    }
    if Preserves(schema, other, matches) {
      forall items: Items | items.Cons? && Covered(prefix, items)
        ensures !other(PrefixItems, prefix, Arr(items))
      {
        assert Valid(r, schema, Arr(items)) ==> Valid(q, Sanitize(schema), Arr(items));
      }
    }
  }

  /** The prefix is a list at least as long. */
  ghost predicate Covered(prefix: Json, items: Items) {
    prefix.Arr? && Drop(items, prefix.items) == Nil
  }

  /** Dropping `patternProperties` beside a closed `additionalProperties` keeps the meaning if and only if no nonempty
      object whose names all match is accepted by `patternProperties`. */
  lemma {:induction false} PatternPreservedIff(
    p: Json, other: (Text, Json, Json) -> bool, matches: (Json, Text) -> bool)
    ensures Preserves(Obj(Pair(PatternProperties, p, AdditionalProperties, Bool(false))), other, matches) <==>
              forall members: Members :: members.Member? && AllMatch(p, members, matches) ==>
                !other(PatternProperties, p, Obj(members))
  {
    var node := Pair(PatternProperties, p, AdditionalProperties, Bool(false));
    var schema := Obj(node);
    var r, q := Exactly(schema, other, matches), Ordinary(Sanitize(schema), other, matches);
    PairRewritten(PatternProperties, p, AdditionalProperties, false);
    assert Sanitize(schema) == Only(AdditionalProperties, Bool(false));
    forall x
      ensures Valid(r, schema, x) <==>
                other(PatternProperties, p, x) && (x.Obj? ==> AllMatch(p, x.members, matches))
      ensures Valid(q, Sanitize(schema), x) <==> (x.Obj? ==> x.members == Empty)
    {
      PairMeans(r, PatternProperties, p, AdditionalProperties, x);
      RestMeans(q, AdditionalProperties, x);
      if x.Obj? {
        AdditionalMatch(r, q, p, x.members);
      }
    }
    if Preserves(schema, other, matches) {
      forall members: Members | members.Member? && AllMatch(p, members, matches)
        ensures !other(PatternProperties, p, Obj(members))
      {
        assert Valid(r, schema, Obj(members)) ==> Valid(q, Sanitize(schema), Obj(members));
      }
    }
  }

  ghost predicate AllMatch(p: Json, members: Members, matches: (Json, Text) -> bool) {
    forall name :: Get(members, name).Some? ==> matches(p, name)
  }

  lemma {:induction false} AdditionalMatch(r: Reading, q: Reading, p: Json, members: Members)
    ensures var node := Pair(PatternProperties, p, AdditionalProperties, Bool(false));
            Nothing(r, node, AdditionalProperties, Obj(members)) <==> AllMatch(p, members, r.matches)
    ensures Nothing(q, Member(AdditionalProperties, Bool(false), Empty), AdditionalProperties, Obj(members))
       <==> members == Empty
  {
    var node, rest := Pair(PatternProperties, p, AdditionalProperties, Bool(false)),
                      Member(AdditionalProperties, Bool(false), Empty);
    PairRewritten(PatternProperties, p, AdditionalProperties, false);
    OnlyKey(AdditionalProperties, Bool(false), PatternProperties);
    OnlyKey(AdditionalProperties, Bool(false), Properties);
    assert forall name :: IsAdditional(r, node, name) <==> !r.matches(p, name);
    assert forall name :: IsAdditional(q, rest, name);
    if members.Member? {
      assert Get(members, members.key).Some?;
    }
  }

  /** For instance, arrays with one element, whatever it is, are lost when only the first element was allowed. */
  lemma {:induction false} PrefixIsLost(
    y: Json, other: (Text, Json, Json) -> bool, matches: (Json, Text) -> bool)
    requires other(PrefixItems, Arr(Cons(Bool(true), Nil)), Arr(Cons(y, Nil)))
    ensures !Preserves(Obj(Pair(PrefixItems, Arr(Cons(Bool(true), Nil)), ItemsWord, Bool(false))), other, matches)
  {
    var items, prefix := Cons(y, Nil), Arr(Cons(Bool(true), Nil));
    PrefixPreservedIff(prefix, other, matches);
    assert Drop(items, prefix.items) == Drop(Nil, Nil) == Nil;
    assert Covered(prefix, items);
  }

  /** And so are objects with one matching name. */
  lemma {:induction false} PatternIsLost(
    p: Json, name: Text, y: Json, other: (Text, Json, Json) -> bool, matches: (Json, Text) -> bool)
    requires matches(p, name) && other(PatternProperties, p, Obj(Member(name, y, Empty)))
    ensures !Preserves(Obj(Pair(PatternProperties, p, AdditionalProperties, Bool(false))), other, matches)
  {
    var members := Member(name, y, Empty);
    PatternPreservedIff(p, other, matches);
    forall k | Get(members, k).Some?
      ensures matches(p, k)
    {
      OnlyKey(name, y, k);
    }
    assert AllMatch(p, members, matches);
  }
}
