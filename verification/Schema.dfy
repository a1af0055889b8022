/** `build_provider_safe_schema`: the rewrite of a JSON Schema tree into the strict subset that the
    provider accepts. */
module Schema {
  import opened Common
  import opened Json

  /** The keywords of `_SAFE_SCHEMA_KEYS`. */
  predicate IsSafe(key: Text) {
    key.Defs? || key.Ref? || key.AdditionalProperties? || key.AnyOf? || key.Const? || key.Enum?
    || key.ItemsWord? || key.Properties? || key.Type?
  }

  /** Nodes that the rewrite treats as objects. */
  predicate IsObjectNode(node: Members) {
    Get(node, Type) == Some(Str(Object)) || Get(node, Properties).Some?
  }

  function Sanitize(j: Json): Json
    decreases j, 0
  {
    match j
    case Arr(items) => Arr(SanitizeItems(items))
    case Obj(node) => Obj(SanitizeNode(node))
    case _ => j
  }

  function SanitizeItems(items: Items): Items {
    match items
    case Nil => Nil
    case Cons(head, tail) => Cons(Sanitize(head), SanitizeItems(tail))
  }

  /** The values of a container whose keys are names, not keywords. */
  function SanitizeFields(fields: Members): Members {
    match fields
    case Empty => Empty
    case Member(name, schema, rest) => Member(name, Sanitize(schema), SanitizeFields(rest))
  }

  function SanitizeValue(key: Text, value: Json): Json
    decreases value, 1
  {
    if (key == Properties || key == Defs) && value.Obj? then Obj(SanitizeFields(value.members))
    else Sanitize(value)
  }

  function Keep(node: Members): Members
    decreases node, 0
  {
    match node
    case Empty => Empty
    case Member(key, value, rest) =>
      if IsSafe(key) then Member(key, SanitizeValue(key, value), Keep(rest)) else Keep(rest)
  }

  /** The properties of a node, empty when the keyword is missing or not an object. */
  function Declared(node: Members): Members {
    match Get(node, Properties)
    case Some(Obj(fields)) => fields
    case _ => Empty
  }

  lemma {:induction false} DeclaredIsSmaller(node: Members)
    ensures SizeMembers(Declared(node)) <= SizeMembers(node)
  {
    if Get(node, Properties).Some? {
      GetIsSmaller(node, Properties);
    }
  }

  function Close(clean: Members): Members {
    var fields := Declared(clean);
    var typed := Put(clean, Type, Str(Object));
    var listed := Put(typed, Properties, Obj(fields));
    var needed := Put(listed, Required, Arr(Keys(fields)));
    Put(needed, AdditionalProperties, Bool(false))
  }

  function SanitizeNode(node: Members): Members
    decreases node, 1
  {
    if IsObjectNode(node) then Close(Keep(node)) else Keep(node)
  }

  // ---------------------------------------------------------------- the code's loop over one node

  function Append(a: Members, b: Members): Members {
    match a
    case Empty => b
    case Member(k, v, rest) => Member(k, v, Append(rest, b))
  }

  lemma {:induction false} AppendEmpty(a: Members)
    ensures Append(a, Empty) == a
  {
    if a.Member? {
      AppendEmpty(a.rest);
    }
  }

  lemma {:induction false} PutNew(clean: Members, key: Text, value: Json, more: Members)
    requires Get(clean, key).None?
    ensures Append(Put(clean, key, value), more) == Append(clean, Member(key, value, more))
  {
    if clean.Member? {
      PutNew(clean.rest, key, value, more);
    }
  }

  /** One dictionary node: `clean` is filled key by key, then closed if the node is an object. */
  method SanitizeOneNode(node: Members) returns (clean: Members)
    requires DistinctKeys(node)
    ensures clean == SanitizeNode(node)
  {
    clean := Empty;
    var rest := node;
    while rest.Member?
      invariant DistinctKeys(rest)
      invariant Append(clean, Keep(rest)) == Keep(node)
      invariant forall k :: Get(rest, k).Some? ==> Get(clean, k).None?
      decreases rest
    {
      var key, value := rest.key, rest.value;
      assert Get(rest, key).Some?;
      assert forall k :: Get(rest.rest, k).Some? ==> Get(rest, k).Some? && k != key;
      forall k {
        GetPut(clean, key, SanitizeValue(key, value), k);
      }
      if key == Properties && value.Obj? {
        PutNew(clean, key, Obj(SanitizeFields(value.members)), Keep(rest.rest));
        clean := Put(clean, key, Obj(SanitizeFields(value.members)));
      } else if key == Defs && value.Obj? {
        PutNew(clean, key, Obj(SanitizeFields(value.members)), Keep(rest.rest));
        clean := Put(clean, key, Obj(SanitizeFields(value.members)));
      } else if IsSafe(key) {
        PutNew(clean, key, Sanitize(value), Keep(rest.rest));
        clean := Put(clean, key, Sanitize(value));
      }
      rest := rest.rest;
    }
    AppendEmpty(clean);
    assert clean == Keep(node);
    if Get(node, Type) == Some(Str(Object)) || Get(node, Properties).Some? {
      var properties := Get(clean, Properties);
      var fields := if properties.Some? && properties.value.Obj? then properties.value.members else Empty;
      clean := Put(clean, Type, Str(Object));
      clean := Put(clean, Properties, Obj(fields));
      clean := Put(clean, Required, Arr(Keys(fields)));
      clean := Put(clean, AdditionalProperties, Bool(false));
    }
  }

  // ---------------------------------------------------------------- looking keywords up

  lemma {:induction false} GetKeep(node: Members, key: Text)
    ensures Get(Keep(node), key) == KeptValue(node, key)
  {
    if node.Member? {
      GetKeep(node.rest, key);
    }
  }

  lemma {:induction false} GetFields(fields: Members, name: Text)
    ensures Get(SanitizeFields(fields), name) ==
              if Get(fields, name).Some? then Some(Sanitize(Get(fields, name).value)) else None
  {
    if fields.Member? {
      GetFields(fields.rest, name);
    }
  }

  lemma {:induction false} KeysOfFields(fields: Members)
    ensures Keys(SanitizeFields(fields)) == Keys(fields)
  {
    if fields.Member? {
      KeysOfFields(fields.rest);
    }
  }

  lemma {:induction false} GetClose(clean: Members, key: Text)
    ensures Get(Close(clean), key) ==
              match key
              case Type => Some(Str(Object))
              case Properties => Some(Obj(Declared(clean)))
              case Required => Some(Arr(Keys(Declared(clean))))
              case AdditionalProperties => Some(Bool(false))
              case _ => Get(clean, key)
  {
    var fields := Declared(clean);
    var typed := Put(clean, Type, Str(Object));
    var listed := Put(typed, Properties, Obj(fields));
    var needed := Put(listed, Required, Arr(Keys(fields)));
    GetPut(clean, Type, Str(Object), key);
    GetPut(typed, Properties, Obj(fields), key);
    GetPut(listed, Required, Arr(Keys(fields)), key);
    GetPut(needed, AdditionalProperties, Bool(false), key);
  }

  lemma {:induction false} DeclaredKept(node: Members)
    ensures Declared(Keep(node)) == SanitizeFields(Declared(node))
    ensures Keys(Declared(Keep(node))) == Keys(Declared(node))
  {
    GetKeep(node, Properties);
    KeysOfFields(Declared(node));
    var p := Get(node, Properties);
    if p.Some? && !p.value.Obj? {
      assert !SanitizeValue(Properties, p.value).Obj?;
    }
  }

  ghost function KeptValue(node: Members, key: Text): Option<Json> {
    if IsSafe(key) && Get(node, key).Some? then Some(SanitizeValue(key, Get(node, key).value)) else None
  }

  /** The keywords of a rewritten node. */
  ghost function RewrittenValue(node: Members, key: Text): Option<Json> {
    if !IsObjectNode(node) then KeptValue(node, key)
    else
      match key
      case Type => Some(Str(Object))
      case Properties => Some(Obj(SanitizeFields(Declared(node))))
      case Required => Some(Arr(Keys(Declared(node))))
      case AdditionalProperties => Some(Bool(false))
      case _ => KeptValue(node, key)
  }

  lemma {:induction false} GetNode(node: Members, key: Text)
    ensures Get(SanitizeNode(node), key) == RewrittenValue(node, key)
  {
    GetKeep(node, key);
    DeclaredKept(node);
    GetClose(Keep(node), key);
  }

  lemma {:induction false} DeclaredRewritten(node: Members)
    ensures Declared(SanitizeNode(node)) == SanitizeFields(Declared(node))
  {
    GetNode(node, Properties);
    if !IsObjectNode(node) {
      assert Get(node, Properties).None?;
    }
  }

  lemma {:induction false} ContainsSanitized(items: Items, j: Json)
    ensures Contains(SanitizeItems(items), j) ==> exists i :: Contains(items, i) && Sanitize(i) == j
  {
    if items.Cons? && Contains(SanitizeItems(items), j) {
      if Sanitize(items.head) == j {
        assert Contains(items, items.head);
      } else {
        ContainsSanitized(items.tail, j);
        var i :| Contains(items.tail, i) && Sanitize(i) == j;
        assert Contains(items, i);
      }
    }
  }

  lemma {:induction false} SanitizedContains(items: Items, i: Json)
    requires Contains(items, i)
    ensures Contains(SanitizeItems(items), Sanitize(i))
  {
    if items.head != i {
      SanitizedContains(items.tail, i);
    }
  }

  // ---------------------------------------------------------------- the rewritten schema is strict

  /** A node that requires all of its properties and forbids all others. */
  ghost predicate Closed(node: Members) {
    && Get(node, Type) == Some(Str(Object))
    && Get(node, Properties).Some? && Get(node, Properties).value.Obj?
    && Get(node, Required) == Some(Arr(Keys(Get(node, Properties).value.members)))
    && Get(node, AdditionalProperties) == Some(Bool(false))
  }

  /** Only supported keywords occur, and every object node is closed, at every depth. */
  ghost predicate Strict(j: Json)
    decreases Size(j), 1
  {
    match j
    case Arr(items) => forall i :: Contains(items, i) ==> (ContainedIsSmaller(items, i); Strict(i))
    case Obj(node) =>
      && (IsObjectNode(node) ==> Closed(node))
      && forall key :: Get(node, key).Some? ==>
           && (IsSafe(key) || key == Required)
           && (GetIsSmaller(node, key); StrictValue(key, Get(node, key).value))
    case _ => true
  }

  ghost predicate StrictValue(key: Text, value: Json)
    decreases Size(value), 2
  {
    if (key == Properties || key == Defs) && value.Obj? then StrictFields(value.members)
    else Strict(value)
  }

  ghost predicate StrictFields(fields: Members)
    decreases SizeMembers(fields), 0
  {
    forall name :: Get(fields, name).Some? ==>
      (GetIsSmaller(fields, name); Strict(Get(fields, name).value))
  }

  lemma {:induction false} RewriteIsStrict(j: Json)
    ensures Strict(Sanitize(j))
    decreases Size(j), 1
  {
    match j
    case Arr(items) =>
      forall i | Contains(SanitizeItems(items), i)
        ensures Strict(i)
      {
        ContainsSanitized(items, i);
        var original :| Contains(items, original) && Sanitize(original) == i;
        ContainedIsSmaller(items, original);
        RewriteIsStrict(original);
      }
    case Obj(node) =>
      ObjectNodeIsClosed(node);
      forall key | Get(SanitizeNode(node), key).Some?
        ensures IsSafe(key) || key == Required
        ensures StrictValue(key, Get(SanitizeNode(node), key).value)
      {
        KeywordIsStrict(node, key);
      }
    case _ =>
  }

  /** A node with the type `object` or with properties is closed, and no other node becomes one. */
  lemma {:induction false} ObjectNodeIsClosed(node: Members)
    ensures Get(node, Type) == Some(Str(Object)) || Get(node, Properties).Some? ==> Closed(SanitizeNode(node))
    ensures IsObjectNode(SanitizeNode(node)) ==> Closed(SanitizeNode(node))
    ensures IsObjectNode(SanitizeNode(node)) == IsObjectNode(node)
  {
    GetNode(node, Type);
    GetNode(node, Properties);
    if IsObjectNode(node) {
      GetNode(node, Required);
      GetNode(node, AdditionalProperties);
      KeysOfFields(Declared(node));
    } else if Get(node, Type).Some? {
      assert SanitizeValue(Type, Get(node, Type).value) != Str(Object);
    }
  }

  lemma {:induction false} KeywordIsStrict(node: Members, key: Text)
    requires Get(SanitizeNode(node), key).Some?
    ensures IsSafe(key) || key == Required
    ensures StrictValue(key, Get(SanitizeNode(node), key).value)
    decreases SizeMembers(node) + 1, 0
  {
    GetNode(node, key);
    if IsObjectNode(node) && key == Required {
      RequiredIsStrict(Declared(node));
    } else if IsObjectNode(node) && key == Properties {
      DeclaredIsSmaller(node);
      FieldsAreStrict(Declared(node));
    } else if !IsObjectNode(node) || !(key.Type? || key.AdditionalProperties?) {
      GetIsSmaller(node, key);
      ValueIsStrict(key, Get(node, key).value);
    }
  }

  lemma {:induction false} RequiredIsStrict(fields: Members)
    ensures Strict(Arr(Keys(fields)))
  {
    forall i | Contains(Keys(fields), i)
      ensures Strict(i)
    {
      KeysAreStrings(fields, i);
    }
  }

  lemma {:induction false} FieldsAreStrict(fields: Members)
    ensures StrictFields(SanitizeFields(fields))
    decreases SizeMembers(fields), 0
  {
    forall name | Get(SanitizeFields(fields), name).Some?
      ensures Strict(Get(SanitizeFields(fields), name).value)
    {
      GetFields(fields, name);
      GetIsSmaller(fields, name);
      RewriteIsStrict(Get(fields, name).value);
    }
  }

  lemma {:induction false} ValueIsStrict(key: Text, value: Json)
    ensures StrictValue(key, SanitizeValue(key, value))
    decreases Size(value), 2
  {
    if (key == Properties || key == Defs) && value.Obj? {
      FieldsAreStrict(value.members);
    } else {
      RewriteIsStrict(value);
      if (key == Properties || key == Defs) {
        assert !Sanitize(value).Obj?;
      }
    }
  }

  // ---------------------------------------------------------------- rewriting twice

  /** Rewriting twice equals rewriting once, in Python's sense of equality. */
  lemma {:induction false} Idempotent(j: Json)
    ensures Same(Sanitize(Sanitize(j)), Sanitize(j))
    decreases Size(j), 1
  {
    match j
    case Arr(items) => IdempotentItems(items);
    case Obj(node) =>
      var once := SanitizeNode(node);
      var twice := SanitizeNode(once);
      forall key
        ensures Get(twice, key).Some? <==> Get(once, key).Some?
        ensures Get(once, key).Some? ==> Same(Get(twice, key).value, Get(once, key).value)
      {
        IdempotentKeyword(node, key);
      }
    case _ =>
  }

  lemma {:induction false} IdempotentKeyword(node: Members, key: Text)
    ensures var once, twice := SanitizeNode(node), SanitizeNode(SanitizeNode(node));
            && (Get(twice, key).Some? <==> Get(once, key).Some?)
            && (Get(once, key).Some? ==> Same(Get(twice, key).value, Get(once, key).value))
    decreases SizeMembers(node) + 1, 0
  {
    var once := SanitizeNode(node);
    GetNode(node, key);
    GetNode(once, key);
    ObjectNodeIsClosed(node);
    DeclaredRewritten(node);
    if IsObjectNode(node) && key == Properties {
      DeclaredIsSmaller(node);
      IdempotentFields(Declared(node));
    } else if IsObjectNode(node) && (key.Type? || key.Required? || key.AdditionalProperties?) {
      KeysOfFields(Declared(node));
      SameReflexive(Get(once, key).value);
    } else if IsSafe(key) && Get(node, key).Some? {
      GetIsSmaller(node, key);
      IdempotentValue(key, Get(node, key).value);
    }
  }

  lemma {:induction false} IdempotentFields(fields: Members)
    ensures Same(Obj(SanitizeFields(SanitizeFields(fields))), Obj(SanitizeFields(fields)))
    decreases SizeMembers(fields), 0
  {
    var once := SanitizeFields(fields);
    forall name
      ensures Get(SanitizeFields(once), name).Some? <==> Get(once, name).Some?
      ensures Get(once, name).Some? ==> Same(Get(SanitizeFields(once), name).value, Get(once, name).value)
    {
      GetFields(fields, name);
      GetFields(once, name);
      if Get(fields, name).Some? {
        GetIsSmaller(fields, name);
        Idempotent(Get(fields, name).value);
      }
    }
  }

  lemma {:induction false} IdempotentValue(key: Text, value: Json)
    ensures Same(SanitizeValue(key, SanitizeValue(key, value)), SanitizeValue(key, value))
    decreases Size(value), 2
  {
    if (key == Properties || key == Defs) && value.Obj? {
      IdempotentFields(value.members);
    } else {
      Idempotent(value);
      if (key == Properties || key == Defs) {
        assert !Sanitize(value).Obj?;
      }
    }
  }

  lemma {:induction false} IdempotentItems(items: Items)
    ensures SameItems(SanitizeItems(SanitizeItems(items)), SanitizeItems(items))
    decreases SizeItems(items), 0
  {
    if items.Cons? {
      Idempotent(items.head);
      IdempotentItems(items.tail);
    }
  }
}
