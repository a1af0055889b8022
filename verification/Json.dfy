/** JSON values with Python's ordered dictionaries. */
module Json {
  import opened Common

  /** Strings, with the spellings that the rewrite looks for as constructors of their own: the schema
      keywords, the type name `object`, and the references `#/$defs/<name>`. */
  datatype Text =
    | Defs | Ref | AdditionalProperties | AnyOf | Const | Enum | ItemsWord | Properties | Type | Required
    | PatternProperties | PrefixItems
    | Object
    | DefRef(name: Text)
    | Other(spelling: string)

  datatype Json =
    | Null
    | Bool(b: bool)
    | Num(n: real)
    | Str(s: Text)
    | Arr(items: Items)
    | Obj(members: Members)

  datatype Items = Nil | Cons(head: Json, tail: Items)

  /** A dictionary in insertion order. */
  datatype Members = Empty | Member(key: Text, value: Json, rest: Members)

  ghost function Size(j: Json): nat {
    match j
    case Arr(items) => 1 + SizeItems(items)
    case Obj(members) => 1 + SizeMembers(members)
    case _ => 0
  }

  ghost function SizeItems(items: Items): nat {
    match items
    case Nil => 0
    case Cons(head, tail) => 1 + Size(head) + SizeItems(tail)
  }

  ghost function SizeMembers(ms: Members): nat {
    match ms
    case Empty => 0
    case Member(_, value, rest) => 1 + Size(value) + SizeMembers(rest)
  }

  function Get(ms: Members, key: Text): Option<Json> {
    match ms
    case Empty => None
    case Member(k, v, rest) => if k == key then Some(v) else Get(rest, key)
  }

  /** `d[key] = value`: in place when the key is present, at the end otherwise. */
  function Put(ms: Members, key: Text, value: Json): Members {
    match ms
    case Empty => Member(key, value, Empty)
    case Member(k, v, rest) =>
      if k == key then Member(k, value, rest) else Member(k, v, Put(rest, key, value))
  }

  lemma {:induction false} GetPut(ms: Members, key: Text, value: Json, k: Text)
    ensures Get(Put(ms, key, value), k) == if k == key then Some(value) else Get(ms, k)
  {
    if ms.Member? {
      GetPut(ms.rest, key, value, k);
    }
  }

  predicate DistinctKeys(ms: Members) {
    ms.Member? ==> Get(ms.rest, ms.key).None? && DistinctKeys(ms.rest)
  }

  /** `list(d)`: the keys in order. */
  function Keys(ms: Members): Items {
    match ms
    case Empty => Nil
    case Member(k, _, rest) => Cons(Str(k), Keys(rest))
  }

  predicate Contains(items: Items, j: Json) {
    items.Cons? && (items.head == j || Contains(items.tail, j))
  }

  lemma {:induction false} GetIsSmaller(ms: Members, key: Text)
    requires Get(ms, key).Some?
    ensures Size(Get(ms, key).value) < SizeMembers(ms)
  {
    if ms.key != key {
      GetIsSmaller(ms.rest, key);
    }
  }

  lemma {:induction false} ContainedIsSmaller(items: Items, j: Json)
    requires Contains(items, j)
    ensures Size(j) < SizeItems(items)
  {
    if items.head != j {
      ContainedIsSmaller(items.tail, j);
    }
  }

  lemma {:induction false} KeysContain(ms: Members, key: Text)
    ensures Contains(Keys(ms), Str(key)) <==> Get(ms, key).Some?
  {
    if ms.Member? {
      KeysContain(ms.rest, key);
    }
  }

  lemma {:induction false} KeysAreStrings(ms: Members, j: Json)
    requires Contains(Keys(ms), j)
    ensures j.Str?
  {
    if Keys(ms).head != j {
      KeysAreStrings(ms.rest, j);
    }
  }

  /** Python's `==`: dictionaries are compared without regard to the order of their keys. */
  ghost predicate Same(a: Json, b: Json)
    decreases Size(a)
  {
    match (a, b)
    case (Arr(xs), Arr(ys)) => SameItems(xs, ys)
    case (Obj(m), Obj(n)) =>
      forall k ::
        && (Get(m, k).Some? <==> Get(n, k).Some?)
        && (Get(m, k).Some? ==> (GetIsSmaller(m, k); Same(Get(m, k).value, Get(n, k).value)))
    case (_, _) => a == b
  }

  ghost predicate SameItems(xs: Items, ys: Items)
    decreases SizeItems(xs)
  {
    match (xs, ys)
    case (Nil, Nil) => true
    case (Cons(x, s), Cons(y, t)) => Same(x, y) && SameItems(s, t)
    case (_, _) => false
  }

  lemma {:induction false} SameReflexive(j: Json)
    ensures Same(j, j)
    decreases Size(j)
  {
    match j
    case Arr(items) => SameItemsReflexive(items);
    case Obj(ms) =>
      forall k | Get(ms, k).Some?
        ensures Same(Get(ms, k).value, Get(ms, k).value)
      {
        GetIsSmaller(ms, k);
        SameReflexive(Get(ms, k).value);
      }
    case _ =>
  }

  lemma {:induction false} SameItemsReflexive(items: Items)
    ensures SameItems(items, items)
    decreases SizeItems(items)
  {
    if items.Cons? {
      SameReflexive(items.head);
      SameItemsReflexive(items.tail);
    }
  }

  lemma {:induction false} SameSymmetric(a: Json, b: Json)
    requires Same(a, b)
    ensures Same(b, a)
    decreases Size(a)
  {
    match (a, b)
    case (Arr(xs), Arr(ys)) => SameItemsSymmetric(xs, ys);
    case (Obj(m), Obj(n)) =>
      forall k | Get(m, k).Some?
        ensures Same(Get(n, k).value, Get(m, k).value)
      {
        GetIsSmaller(m, k);
        SameSymmetric(Get(m, k).value, Get(n, k).value);
      }
    case (_, _) =>
  }

  lemma {:induction false} SameItemsSymmetric(xs: Items, ys: Items)
    requires SameItems(xs, ys)
    ensures SameItems(ys, xs)
    decreases SizeItems(xs)
  {
    if xs.Cons? {
      SameSymmetric(xs.head, ys.head);
      SameItemsSymmetric(xs.tail, ys.tail);
    }
  }

  lemma {:induction false} SameTransitive(a: Json, b: Json, c: Json)
    requires Same(a, b) && Same(b, c)
    ensures Same(a, c)
    decreases Size(a)
  {
    match (a, b)
    case (Arr(xs), Arr(ys)) => SameItemsTransitive(xs, ys, c.items);
    case (Obj(m), Obj(n)) =>
      forall k | Get(m, k).Some?
        ensures Same(Get(m, k).value, Get(c.members, k).value)
      {
        GetIsSmaller(m, k);
        SameTransitive(Get(m, k).value, Get(n, k).value, Get(c.members, k).value);
      }
    case (_, _) =>
  }

  lemma {:induction false} SameItemsTransitive(xs: Items, ys: Items, zs: Items)
    requires SameItems(xs, ys) && SameItems(ys, zs)
    ensures SameItems(xs, zs)
    decreases SizeItems(xs)
  {
    if xs.Cons? {
      SameTransitive(xs.head, ys.head, zs.head);
      SameItemsTransitive(xs.tail, ys.tail, zs.tail);
    }
  }

  /** Values that are the same compare alike. */
  lemma {:induction false} SameAlike(a: Json, b: Json, x: Json)
    requires Same(a, b)
    ensures Same(a, x) <==> Same(b, x)
  {
    SameSymmetric(a, b);
    if Same(a, x) {
      SameTransitive(b, a, x);
    }
    if Same(b, x) {
      SameTransitive(a, b, x);
    }
  }
}
