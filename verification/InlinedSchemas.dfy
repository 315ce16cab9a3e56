/**
 * What an inlined schema is, key by key.  Inlined relates a schema to its result without asking the
 * inlining anything: it names the two keys that are dropped and says where every other value comes
 * from.  Inlining is proved to compute exactly this relation.
 */
module InlinedSchemas {
  import opened Results
  import opened Json
  import opened SchemaInlining

  // ---------------------------------------------------------------- pointers

  // The escapes of RFC 6901, section 4, read in one pass.
  function Unescaped(pointer: string): string {
    if pointer == "" then ""
    else if "~1" <= pointer then "/" + Unescaped(pointer[2..])
    else if "~0" <= pointer then "~" + Unescaped(pointer[2..])
    else [pointer[0]] + Unescaped(pointer[1..])
  }

  lemma {:induction false} SlashFirst(pointer: string)
    requires "~1" <= pointer
    ensures DecodeName(pointer) == "/" + DecodeName(pointer[2..])
  {
    var rest := Replace(pointer[2..], '~', '1', "/");
    assert ("/" + rest)[1..] == rest;
    assert |rest| < 1 ==> rest == "";
  }

  lemma {:induction false} TildeFirst(pointer: string)
    requires "~0" <= pointer
    ensures DecodeName(pointer) == "~" + DecodeName(pointer[2..])
  {
    var tail := pointer[1..];
    var rest := Replace(pointer[2..], '~', '1', "/");
    assert tail[1..] == pointer[2..] && tail[0] == '0';
    assert Replace(tail, '~', '1', "/") == "0" + rest;
    var s := Replace(pointer, '~', '1', "/");
    assert s == ['~'] + ("0" + rest);
    assert s[2..] == rest;
  }

  // What follows a tilde that is no escape does not become one.
  lemma {:induction false} FirstStays(s: string)
    requires s != "" && s[0] != '0'
    ensures Replace(s, '~', '1', "/") != "" && Replace(s, '~', '1', "/")[0] != '0'
  {
  }

  lemma {:induction false} PlainFirst(pointer: string)
    requires pointer != "" && !("~1" <= pointer) && !("~0" <= pointer)
    ensures DecodeName(pointer) == [pointer[0]] + DecodeName(pointer[1..])
  {
    var c, tail := pointer[0], pointer[1..];
    var rest := Replace(tail, '~', '1', "/");
    if tail == "" {
      assert pointer == [c] && rest == "";
    } else {
      assert Replace(pointer, '~', '1', "/") == [c] + rest;
      if c == '~' {
        assert pointer[..2] == [c, tail[0]];
        assert tail[0] != '0' && tail[0] != '1';
        FirstStays(tail);
      }
      assert ([c] + rest)[1..] == rest;
    }
  }

  /** The two replacements, in the order they are made, read every pointer as RFC 6901 does. */
  lemma {:induction false} DecodesInOnePass(pointer: string)
    ensures DecodeName(pointer) == Unescaped(pointer)
    decreases |pointer|
  {
    if pointer != "" {
      if "~1" <= pointer {
        SlashFirst(pointer);
        DecodesInOnePass(pointer[2..]);
      } else if "~0" <= pointer {
        TildeFirst(pointer);
        DecodesInOnePass(pointer[2..]);
      } else {
        PlainFirst(pointer);
        DecodesInOnePass(pointer[1..]);
      }
    }
  }

  // The object refers to this definition.
  predicate PointsTo(fields: map<string, Value>, name: string) {
    "$ref" in fields && fields["$ref"].Str? && "#/$defs/" <= fields["$ref"].s && Unescaped(fields["$ref"].s[8..]) == name
  }

  predicate Points(fields: map<string, Value>) {
    "$ref" in fields && fields["$ref"].Str? && "#/$defs/" <= fields["$ref"].s
  }

  lemma {:induction false} RefIff(fields: map<string, Value>, name: string)
    ensures LocalRef(fields) == Some(name) <==> PointsTo(fields, name)
    ensures LocalRef(fields).Some? <==> Points(fields)
  {
    if Points(fields) {
      DecodesInOnePass(fields["$ref"].s[8..]);
    }
  }

  // ---------------------------------------------------------------- the relation

  // The keys of the object itself that stay beside its reference.
  predicate OwnKey(fields: map<string, Value>, k: string) {
    k in fields && k != "$ref" && k != "$defs"
  }

  // Every key is the definition's or an own one, and what is not the object's own is the definition's.
  ghost predicate WrittenOver(fields: map<string, Value>, base: map<string, Value>, r: map<string, Value>) {
    && (forall k :: k in r <==> k in base || OwnKey(fields, k))
    && (forall k :: k in r && !OwnKey(fields, k) ==> k in base && r[k] == base[k])
  }

  // Each part becomes its own result; an object that refers to a definition takes the keys of that
  // definition's result and writes its own keys but the reference over them.  Definitions are dropped.
  ghost predicate Inlined(defs: Definitions, v: Value, r: Value, n: nat)
    decreases n, v
  {
    match v
    case List(items) =>
      r.List? && |r.items| == |items| && forall i :: 0 <= i < |items| ==> Inlined(defs, items[i], r.items[i], n)
    case Obj(fields) =>
      if !r.Obj? then false
      else if Points(fields) then
        var name := Unescaped(fields["$ref"].s[8..]);
        && n > 0 && name in defs && defs[name].Obj?
        && (exists base :: WrittenOver(fields, base, r.fields) && Inlined(defs, defs[name], Obj(base), n - 1))
        && forall k :: k in fields && k in r.fields && OwnKey(fields, k) ==> Inlined(defs, fields[k], r.fields[k], n)
      else
        && (forall k :: k in r.fields <==> k in fields && k != "$defs")
        && forall k :: k in fields && k in r.fields ==> Inlined(defs, fields[k], r.fields[k], n)
    case _ => r == v
  }

  lemma {:induction false} SubstitutesIff(defs: Definitions, v: Value, r: Value, n: nat)
    ensures Substitute(defs, v, n) == Some(r) <==> Inlined(defs, v, r, n)
    decreases n, v, 6
  {
    match v
    case List(items) => ItemsIff(defs, v, r, n);
    case Obj(fields) =>
      if Points(fields) {
        ReferenceIff(defs, v, r, n);
      } else {
        PlainObjectIff(defs, v, r, n);
      }
    case _ =>
  }

  lemma {:induction false} ItemsIff(defs: Definitions, v: Value, r: Value, n: nat)
    requires v.List?
    ensures Substitute(defs, v, n) == Some(r) <==> Inlined(defs, v, r, n)
    decreases n, v, 0
  {
    if r.List? && |r.items| == |v.items| {
      forall i | 0 <= i < |v.items|
        ensures Substitute(defs, v.items[i], n) == Some(r.items[i]) <==> Inlined(defs, v.items[i], r.items[i], n)
      {
        SubstitutesIff(defs, v.items[i], r.items[i], n);
      }
      if Inlined(defs, v, r, n) {
        assert AllItems(SubstituteItems(defs, v, n)).Some?;
        assert AllItems(SubstituteItems(defs, v, n)).value == r.items;
      }
    }
  }

  lemma {:induction false} FieldIff(defs: Definitions, v: Value, k: string, x: Value, n: nat)
    requires v.Obj? && k in v.fields
    ensures Substitute(defs, v.fields[k], n) == Some(x) <==> Inlined(defs, v.fields[k], x, n)
    decreases n, v, 0
  {
    SubstitutesIff(defs, v.fields[k], x, n);
  }

  // The object's own keys have these results.
  ghost predicate OwnResults(defs: Definitions, v: Value, keys: set<string>, own: map<string, Value>, n: nat)
    requires v.Obj? && keys <= v.fields.Keys
  {
    own.Keys == keys && forall k :: k in keys ==> Inlined(defs, v.fields[k], own[k], n)
  }

  lemma {:induction false} SiblingsIff(defs: Definitions, v: Value, own: map<string, Value>, n: nat)
    requires v.Obj?
    ensures KeptKeys(v.fields) <= v.fields.Keys
    ensures AllFields(SubstituteFields(defs, v, n)) == Some(own) <==> OwnResults(defs, v, KeptKeys(v.fields), own, n)
    decreases n, v, 3
  {
    if own.Keys == KeptKeys(v.fields) {
      forall k | k in KeptKeys(v.fields)
        ensures Substitute(defs, v.fields[k], n) == Some(own[k]) <==> Inlined(defs, v.fields[k], own[k], n)
      {
        FieldIff(defs, v, k, own[k], n);
      }
      var rs := SubstituteFields(defs, v, n);
      if OwnResults(defs, v, KeptKeys(v.fields), own, n) {
        assert forall k :: k in rs ==> rs[k] == Some(own[k]);
        assert AllFields(rs).Some? && AllFields(rs).value == own;
      }
    }
  }

  lemma {:induction false} PlainObjectIff(defs: Definitions, v: Value, r: Value, n: nat)
    requires v.Obj? && !Points(v.fields)
    ensures Substitute(defs, v, n) == Some(r) <==> Inlined(defs, v, r, n)
    decreases n, v, 5
  {
    RefIff(v.fields, "");
    if r.Obj? {
      SiblingsIff(defs, v, r.fields, n);
      assert r.fields.Keys == KeptKeys(v.fields) <==> forall k :: k in r.fields <==> k in v.fields && k != "$defs";
    }
  }

  ghost predicate Composed(defs: Definitions, v: Value, name: string, base: map<string, Value>, own: map<string, Value>, r: Value, n: nat)
    requires v.Obj? && n > 0
  {
    && Defined(defs, name) && Substitute(defs, defs[name], n - 1) == Some(Obj(base))
    && AllFields(SubstituteFields(defs, v, n)) == Some(own) && r == Obj(base + own)
  }

  lemma {:induction false} SubstituteComposes(defs: Definitions, v: Value, name: string, r: Value, n: nat)
    requires v.Obj? && LocalRef(v.fields) == Some(name)
    ensures Substitute(defs, v, n) == Some(r) <==> n > 0 && exists base, own :: Composed(defs, v, name, base, own, r, n)
  {
    if Substitute(defs, v, n) == Some(r) {
      var base := Substitute(defs, defs[name], n - 1).value.fields;
      var own := AllFields(SubstituteFields(defs, v, n)).value;
      assert Composed(defs, v, name, base, own, r, n);
    }
  }

  ghost predicate OwnInlined(defs: Definitions, v: Value, r: map<string, Value>, n: nat)
    requires v.Obj?
  {
    forall k :: k in v.fields && k in r && OwnKey(v.fields, k) ==> Inlined(defs, v.fields[k], r[k], n)
  }

  lemma {:induction false} KeptAreOwn(fields: map<string, Value>)
    requires Points(fields)
    ensures KeptKeys(fields) <= fields.Keys && forall k :: k in KeptKeys(fields) <==> OwnKey(fields, k)
  {
    RefIff(fields, "");
  }

  // The object's own results, written over the definition's.
  lemma {:induction false} OwnPart(defs: Definitions, v: Value, base: map<string, Value>, r: map<string, Value>, n: nat)
    returns (own: map<string, Value>)
    requires v.Obj? && Points(v.fields) && WrittenOver(v.fields, base, r) && OwnInlined(defs, v, r, n)
    ensures KeptKeys(v.fields) <= v.fields.Keys && OwnResults(defs, v, KeptKeys(v.fields), own, n) && r == base + own
  {
    KeptAreOwn(v.fields);
    own := map k | k in r && OwnKey(v.fields, k) :: r[k];
    assert own.Keys == KeptKeys(v.fields);
    assert r.Keys == (base + own).Keys;
  }

  lemma {:induction false} OwnPartIsOver(defs: Definitions, v: Value, base: map<string, Value>, own: map<string, Value>, n: nat)
    requires v.Obj? && Points(v.fields)
    requires KeptKeys(v.fields) <= v.fields.Keys && OwnResults(defs, v, KeptKeys(v.fields), own, n)
    ensures WrittenOver(v.fields, base, base + own) && OwnInlined(defs, v, base + own, n)
  {
    KeptAreOwn(v.fields);
  }

  // What Inlined says of an object with a reference.
  ghost predicate ReferenceInlined(defs: Definitions, v: Value, name: string, base: map<string, Value>, r: Value, n: nat) {
    && v.Obj? && r.Obj? && n > 0 && Defined(defs, name) && WrittenOver(v.fields, base, r.fields)
    && Inlined(defs, defs[name], Obj(base), n - 1)
    && OwnInlined(defs, v, r.fields, n)
  }

  lemma {:induction false} InlinedReference(defs: Definitions, v: Value, name: string, r: Value, n: nat)
    requires v.Obj? && Points(v.fields) && name == Unescaped(v.fields["$ref"].s[8..])
    ensures Inlined(defs, v, r, n) <==> exists base :: ReferenceInlined(defs, v, name, base, r, n)
  {
    if Inlined(defs, v, r, n) {
      var base :| WrittenOver(v.fields, base, r.fields) && Inlined(defs, defs[name], Obj(base), n - 1);
      assert ReferenceInlined(defs, v, name, base, r, n);
    }
  }

  lemma {:induction false} ComposedIsInlined(
      defs: Definitions, v: Value, name: string, base: map<string, Value>, own: map<string, Value>, r: Value, n: nat)
    requires v.Obj? && n > 0 && Points(v.fields) && Composed(defs, v, name, base, own, r, n)
    ensures ReferenceInlined(defs, v, name, base, r, n)
    decreases n, v, 4
  {
    SubstitutesIff(defs, defs[name], Obj(base), n - 1);
    SiblingsIff(defs, v, own, n);
    OwnPartIsOver(defs, v, base, own, n);
  }

  lemma {:induction false} InlinedIsComposed(
      defs: Definitions, v: Value, name: string, base: map<string, Value>, own: map<string, Value>, n: nat)
    requires v.Obj? && n > 0 && Defined(defs, name) && Inlined(defs, defs[name], Obj(base), n - 1)
    requires KeptKeys(v.fields) <= v.fields.Keys && OwnResults(defs, v, KeptKeys(v.fields), own, n)
    ensures Composed(defs, v, name, base, own, Obj(base + own), n)
    decreases n, v, 4
  {
    SubstitutesIff(defs, defs[name], Obj(base), n - 1);
    SiblingsIff(defs, v, own, n);
  }

  lemma {:induction false} ReferenceIff(defs: Definitions, v: Value, r: Value, n: nat)
    requires v.Obj? && Points(v.fields)
    ensures Substitute(defs, v, n) == Some(r) <==> Inlined(defs, v, r, n)
    decreases n, v, 5
  {
    var name := Unescaped(v.fields["$ref"].s[8..]);
    RefIff(v.fields, name);
    SubstituteComposes(defs, v, name, r, n);
    InlinedReference(defs, v, name, r, n);
    if n > 0 {
      if base, own :| Composed(defs, v, name, base, own, r, n) {
        ComposedIsInlined(defs, v, name, base, own, r, n);
      }
      if base :| ReferenceInlined(defs, v, name, base, r, n) {
        var own := OwnPart(defs, v, base, r.fields, n);
        InlinedIsComposed(defs, v, name, base, own, n);
      }
    }
  }

  /**
   * A schema is inlined to a result exactly when the result is its inlining key by key: beside a local
   * reference every own key but "$ref" and "$defs" is kept and overrides the definition's, "$defs" is
   * dropped everywhere, and nothing else changes.
   */
  lemma {:induction false} InlinesKeyByKey(schema: map<string, Value>, r: Value)
    ensures var defs := if "$defs" in schema && schema["$defs"].Obj? then schema["$defs"].fields else map[];
            Inline(schema) == Some(r) <==> exists n: nat :: Inlined(defs, Obj(schema), r, n)
  {
    var defs := DefinitionsOf(schema);
    InlinedSchema(schema, r);
    SomeDepthIff(defs, Obj(schema), r);
  }

  lemma {:induction false} SomeDepthIff(defs: Definitions, v: Value, r: Value)
    ensures (exists n: nat :: Substitute(defs, v, n) == Some(r)) <==> exists n: nat :: Inlined(defs, v, r, n)
  {
    if n: nat :| Substitute(defs, v, n) == Some(r) {
      SubstitutesIff(defs, v, r, n);
    }
    if n: nat :| Inlined(defs, v, r, n) {
      SubstitutesIff(defs, v, r, n);
    }
  }
}
