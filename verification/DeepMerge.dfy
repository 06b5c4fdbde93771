/** The recursive merge of role configuration objects. */
module DeepMerge {
  import opened Wrappers

  /** A JSON value. Objects are finite maps: key order is left out. */
  datatype Json = Null | Scalar(text: string) | List(items: seq<Json>) | Object(fields: map<string, Json>)

  /** Objects on both sides are merged key by key; otherwise the override stands. */
  function Merged(base: Json, override: Json): Json
    decreases override
  {
    if base.Object? && override.Object? then
      Object(map k | k in base.fields.Keys + override.fields.Keys ::
        if k in override.fields then
          if k in base.fields then Merged(base.fields[k], override.fields[k]) else override.fields[k]
        else base.fields[k])
    else override
  }

  /** The merge as the loader computes it: a copy of the base, updated with each entry of the override in turn. */
  method DeepMerge(base: map<string, Json>, override: map<string, Json>) returns (result: map<string, Json>)
    ensures Object(result) == Merged(Object(base), Object(override))
    decreases Object(override)
  {
    result := base;
    var todo := override.Keys;
    while todo != {}
      invariant todo <= override.Keys
      invariant result.Keys == base.Keys + (override.Keys - todo)
      invariant forall k :: k in result && (k in todo || k !in override) ==> result[k] == base[k]
      invariant forall k :: k in override && k !in todo ==>
        result[k] == if k in base then Merged(base[k], override[k]) else override[k]
    {
      var key :| key in todo;
      var value := override[key];
      assert value < Object(override);
      if value.Object? && key in result && result[key].Object? {
        var merged := DeepMerge(result[key].fields, value.fields);
        result := result[key := Object(merged)];
      } else {
        result := result[key := value];
      }
      todo := todo - {key};
    }
    assert result == Merged(Object(base), Object(override)).fields;
  }

  // ---------------------------------------------------------------------------
  // What a merge contains
  // ---------------------------------------------------------------------------

  /** The value at a path of keys. */
  function Lookup(value: Json, path: seq<string>): Option<Json> {
    if path == [] then Some(value)
    else if value.Object? && path[0] in value.fields then Lookup(value.fields[path[0]], path[1..])
    else None
  }

  /** A value other than an object stands somewhere on the way to the path. */
  predicate Blocks(value: Json, path: seq<string>) {
    path != [] && (value.Object? ==> path[0] in value.fields && Blocks(value.fields[path[0]], path[1..]))
  }

  /**
   The merge read off path by path: what both sides hold is merged, what only one side holds is kept,
   except that a value of the override hides everything the base holds below it.
   */
  lemma {:induction false} LookupMerged(base: Json, override: Json, path: seq<string>)
    ensures var b, o := Lookup(base, path), Lookup(override, path);
      Lookup(Merged(base, override), path) ==
        if Blocks(override, path) then None
        else if o.None? then b
        else if b.None? then o
        else Some(Merged(b.value, o.value))
  {
    if path != [] && override.Object? {
      if path[0] in override.fields {
        if base.Object? && path[0] in base.fields {
          LookupMerged(base.fields[path[0]], override.fields[path[0]], path[1..]);
        } else {
          HeldUnlessBlocked(override.fields[path[0]], path[1..]);
        }
      }
    }
  }

  /**
   What stands at a path where both sides hold a value, without the merge itself: that of the override, unless both
   are objects; then an object with the keys of both.
   */
  lemma HeldByBoth(base: Json, override: Json, path: seq<string>)
    requires Lookup(base, path).Some? && Lookup(override, path).Some?
    ensures var b, o, merged := Lookup(base, path).value, Lookup(override, path).value, Lookup(Merged(base, override), path);
      && merged.Some?
      && (b.Object? && o.Object? ==> merged.value.Object? && merged.value.fields.Keys == b.fields.Keys + o.fields.Keys)
      && (!b.Object? || !o.Object? ==> merged.value == o)
  {
    LookupMerged(base, override, path);
    HeldUnlessBlocked(override, path);
  }

  lemma {:induction false} HeldUnlessBlocked(value: Json, path: seq<string>)
    ensures Blocks(value, path) ==> Lookup(value, path).None?
  {
    if path != [] && value.Object? && path[0] in value.fields {
      HeldUnlessBlocked(value.fields[path[0]], path[1..]);
    }
  }

  // ---------------------------------------------------------------------------
  // Laws
  // ---------------------------------------------------------------------------

  const EMPTY := Object(map[])

  lemma EmptyIsIdentity(value: Json)
    requires value.Object?
    ensures Merged(EMPTY, value) == value && Merged(value, EMPTY) == value
  {
    assert Merged(EMPTY, value).fields == value.fields;
    assert Merged(value, EMPTY).fields == value.fields;
  }

  /** Merging the same override in twice is the same as merging it in once. */
  lemma {:induction false} OverrideIsAbsorbed(a: Json, b: Json)
    ensures Merged(Merged(a, b), b) == Merged(a, b)
    decreases b
  {
    if b.Object? {
      var once := Merged(a, b);
      forall k | k in b.fields ensures Merged(once.fields[k], b.fields[k]) == once.fields[k] {
        if a.Object? && k in a.fields {
          OverrideIsAbsorbed(a.fields[k], b.fields[k]);
        } else {
          MergedWithItself(b.fields[k]);
        }
      }
      assert Merged(once, b).fields == once.fields;
    }
  }

  lemma {:induction false} MergedWithItself(a: Json)
    ensures Merged(a, a) == a
  {
    if a.Object? {
      forall k | k in a.fields ensures Merged(a.fields[k], a.fields[k]) == a.fields[k] {
        MergedWithItself(a.fields[k]);
      }
      assert Merged(a, a).fields == a.fields;
    }
  }

  /** Every key of `inner` is a key of `outer`, and so on inside keys where both hold objects. */
  predicate Covers(outer: Json, inner: Json)
    decreases inner
  {
    outer.Object? && inner.Object? ==>
      forall k :: k in inner.fields ==> k in outer.fields && Covers(outer.fields[k], inner.fields[k])
  }

  /** Merging adds nothing to an override exactly when the override covers the base. */
  lemma {:induction false} MergedIsOverrideIff(base: Json, override: Json)
    ensures Merged(base, override) == override <==> Covers(override, base)
    decreases base
  {
    if base.Object? && override.Object? {
      var merged := Merged(base, override);
      forall k | k in base.fields && k in override.fields
        ensures Merged(base.fields[k], override.fields[k]) == override.fields[k]
           <==> Covers(override.fields[k], base.fields[k])
      {
        MergedIsOverrideIff(base.fields[k], override.fields[k]);
      }
      if Covers(override, base) {
        assert merged.fields == override.fields;
      }
      if merged == override {
        forall k | k in base.fields ensures k in override.fields && Covers(override.fields[k], base.fields[k]) {
          assert k in merged.fields;
        }
      }
    }
  }

  /** Where both outer values are objects and the middle one is not, the last covers the first. */
  predicate MiddleAgrees(a: Json, b: Json, c: Json)
    decreases a
  {
    a.Object? && c.Object? ==>
      if b.Object? then
        forall k :: k in a.fields && k in b.fields && k in c.fields ==>
          MiddleAgrees(a.fields[k], b.fields[k], c.fields[k])
      else Covers(c, a)
  }

  /** Merging is associative on exactly the triples whose middle value agrees. */
  lemma {:induction false} AssociativeIff(a: Json, b: Json, c: Json)
    ensures Merged(Merged(a, b), c) == Merged(a, Merged(b, c)) <==> MiddleAgrees(a, b, c)
    decreases a
  {
    if a.Object? && c.Object? {
      if b.Object? {
        AssociativeOnObjects(a, b, c);
      } else {
        MergedIsOverrideIff(a, c);
      }
    }
  }

  lemma {:induction false} AssociativeOnObjects(a: Json, b: Json, c: Json)
    requires a.Object? && b.Object? && c.Object?
    ensures Merged(Merged(a, b), c) == Merged(a, Merged(b, c)) <==> MiddleAgrees(a, b, c)
    decreases a, 0
  {
    var left, right := Merged(Merged(a, b), c), Merged(a, Merged(b, c));
    assert left.fields.Keys == right.fields.Keys;
    forall k | k in left.fields
      ensures left.fields[k] == right.fields[k] <==>
        (k in a.fields && k in b.fields && k in c.fields ==> MiddleAgrees(a.fields[k], b.fields[k], c.fields[k]))
    {
      if k in a.fields && k in b.fields && k in c.fields {
        AssociativeIff(a.fields[k], b.fields[k], c.fields[k]);
      }
    }
    if MiddleAgrees(a, b, c) {
      assert left.fields == right.fields;
    }
    if left == right {
      forall k | k in a.fields && k in b.fields && k in c.fields
        ensures MiddleAgrees(a.fields[k], b.fields[k], c.fields[k])
      {
        assert k in left.fields;
      }
    }
  }

  /** A scalar between two objects: merged from the left the first object is lost, from the right it is not. */
  lemma NotAssociativeExample()
    ensures var a, b, c := Object(map["tools" := Object(map["shell" := Scalar("on")])]),
                           Object(map["tools" := Scalar("none")]),
                           Object(map["tools" := EMPTY]);
      && Lookup(Merged(Merged(a, b), c), ["tools", "shell"]) == None
      && Lookup(Merged(a, Merged(b, c)), ["tools", "shell"]) == Some(Scalar("on"))
  {
    var a, b, c := Object(map["tools" := Object(map["shell" := Scalar("on")])]),
                   Object(map["tools" := Scalar("none")]),
                   Object(map["tools" := EMPTY]);
    var path := ["tools", "shell"];
    assert path[1..] == ["shell"] && ["shell"][1..] == [];
    LookupMerged(Merged(a, b), c, path);
    LookupMerged(a, b, path);
    LookupMerged(a, Merged(b, c), path);
    LookupMerged(b, c, path);
    assert Merged(b, c).fields["tools"] == EMPTY;
    assert Merged(a, b).fields["tools"] == Scalar("none");
    assert Lookup(a, path) == Lookup(a.fields["tools"], ["shell"]) == Some(Scalar("on"));
  }

  /** The middle value never stands in the way of two objects: then merging is associative. */
  predicate MiddleNeverBlocks(a: Json, b: Json, c: Json)
    decreases a
  {
    a.Object? && c.Object? ==>
      b.Object? && forall k :: k in a.fields && k in b.fields && k in c.fields ==>
        MiddleNeverBlocks(a.fields[k], b.fields[k], c.fields[k])
  }

  lemma AssociativeWhenNeverBlocked(a: Json, b: Json, c: Json)
    requires MiddleNeverBlocks(a, b, c)
    ensures Merged(Merged(a, b), c) == Merged(a, Merged(b, c))
  {
    NeverBlockingIsAgreeing(a, b, c);
    AssociativeIff(a, b, c);
  }

  lemma {:induction false} NeverBlockingIsAgreeing(a: Json, b: Json, c: Json)
    requires MiddleNeverBlocks(a, b, c)
    ensures MiddleAgrees(a, b, c)
    decreases a
  {
    if a.Object? && c.Object? {
      forall k | k in a.fields && k in b.fields && k in c.fields
        ensures MiddleAgrees(a.fields[k], b.fields[k], c.fields[k])
      {
        NeverBlockingIsAgreeing(a.fields[k], b.fields[k], c.fields[k]);
      }
    }
  }
}
