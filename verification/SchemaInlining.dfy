/**
 * Inlining of local JSON-Schema references, schemas/agent_action.py.
 *
 * Expand is the recursion with its stack of open definitions.  It is proved against two accounts
 * that know no stack: the reference graph says when it succeeds, and unbounded substitution says
 * what it yields.
 */
module SchemaInlining {
  import opened Results
  import opened Json
  import opened Graphs

  type Definitions = map<string, Value>

  const PREFIX: string := "#/$defs/"

  // ---------------------------------------------------------------- pointer names

  // Python's str.replace for a two-character pattern.
  function Replace(s: string, a: char, b: char, text: string): string {
    if |s| < 2 then s
    else if s[0] == a && s[1] == b then text + Replace(s[2..], a, b, text)
    else [s[0]] + Replace(s[1..], a, b, text)
  }

  function DecodeName(pointer: string): string {
    Replace(Replace(pointer, '~', '1', "/"), '~', '0', "~")
  }

  // Section 4 of RFC 6901 read backwards: "~" becomes "~0" and "/" becomes "~1".
  function EscapeName(name: string): string {
    if name == "" then ""
    else
      (if name[0] == '~' then "~0" else if name[0] == '/' then "~1" else [name[0]]) + EscapeName(name[1..])
  }

  // The name after the first of the two replacements.
  function EscapeTildes(name: string): string {
    if name == "" then "" else (if name[0] == '~' then "~0" else [name[0]]) + EscapeTildes(name[1..])
  }

  lemma {:induction false} SlashesDecode(name: string)
    ensures Replace(EscapeName(name), '~', '1', "/") == EscapeTildes(name)
  {
    if name != "" {
      var rest := EscapeName(name[1..]);
      var s := EscapeName(name);
      SlashesDecode(name[1..]);
      if name[0] == '~' {
        assert s[1..] == "0" + rest && ("0" + rest)[1..] == rest;
        assert |rest| < 1 ==> rest == "";
      } else if name[0] == '/' {
        assert s[2..] == rest;
      } else {
        assert s[1..] == rest;
      }
    }
  }

  lemma {:induction false} TildesDecode(name: string)
    ensures Replace(EscapeTildes(name), '~', '0', "~") == name
  {
    if name != "" {
      var rest := EscapeTildes(name[1..]);
      var s := EscapeTildes(name);
      TildesDecode(name[1..]);
      if name[0] == '~' {
        assert s[2..] == rest;
      } else {
        assert s[1..] == rest;
      }
    }
  }

  /** Decoding a pointer name inverts the escaping of RFC 6901, for every name. */
  lemma {:induction false} DecodingInvertsEscaping(name: string)
    ensures DecodeName(EscapeName(name)) == name
  {
    SlashesDecode(name);
    TildesDecode(name);
  }

  // ---------------------------------------------------------------- the recursion

  function LocalRef(fields: map<string, Value>): Option<string> {
    var reference := Get(fields, "$ref");
    if reference.Str? && PREFIX <= reference.s then Some(DecodeName(reference.s[|PREFIX|..])) else None
  }

  // The keys that survive: definitions are dropped, and so is a local reference.
  function KeptKeys(fields: map<string, Value>): set<string> {
    fields.Keys - (if LocalRef(fields).Some? then {"$ref", "$defs"} else {"$defs"})
  }

  predicate Defined(defs: Definitions, name: string) {
    name in defs && defs[name].Obj?
  }

  function Unused(defs: Definitions, stack: seq<string>): set<string> {
    set name | name in defs && name !in stack
  }

  lemma {:induction false} OneLessUnused(defs: Definitions, stack: seq<string>, name: string)
    requires name in defs && name !in stack
    ensures |Unused(defs, stack + [name])| < |Unused(defs, stack)|
  {
    assert Unused(defs, stack + [name]) == Unused(defs, stack) - {name};
  }

  function AllItems(rs: seq<Option<Value>>): (r: Option<seq<Value>>)
    ensures r.Some? <==> forall i :: 0 <= i < |rs| ==> rs[i].Some?
    ensures r.Some? ==> |r.value| == |rs| && forall i :: 0 <= i < |rs| ==> r.value[i] == rs[i].value
  {
    if exists i :: 0 <= i < |rs| && rs[i].None? then None else Some(seq(|rs|, i requires 0 <= i < |rs| => rs[i].value))
  }

  function AllFields(rs: map<string, Option<Value>>): (r: Option<map<string, Value>>)
    ensures r.Some? <==> forall k :: k in rs ==> rs[k].Some?
    ensures r.Some? ==> r.value.Keys == rs.Keys && forall k :: k in rs ==> r.value[k] == rs[k].value
  {
    if exists k :: k in rs && rs[k].None? then None else Some(map k | k in rs :: rs[k].value)
  }

  function ExpandItems(defs: Definitions, v: Value, stack: seq<string>): (rs: seq<Option<Value>>)
    requires v.List?
    ensures |rs| == |v.items| && forall i :: 0 <= i < |rs| ==> rs[i] == Expand(defs, v.items[i], stack)
    decreases |Unused(defs, stack)|, v, 0
  {
    seq(|v.items|, i requires 0 <= i < |v.items| => Expand(defs, v.items[i], stack))
  }

  function ExpandFields(defs: Definitions, v: Value, stack: seq<string>): (rs: map<string, Option<Value>>)
    requires v.Obj?
    ensures rs.Keys == KeptKeys(v.fields) && forall k :: k in rs ==> rs[k] == Expand(defs, v.fields[k], stack)
    decreases |Unused(defs, stack)|, v, 0
  {
    map k | k in v.fields && k in KeptKeys(v.fields) :: Expand(defs, v.fields[k], stack)
  }

  function Expand(defs: Definitions, v: Value, stack: seq<string>): (r: Option<Value>)
    ensures r.Some? && v.Obj? ==> r.value.Obj?
    decreases |Unused(defs, stack)|, v, 1
  {
    match v
    case List(_) =>
      var items := AllItems(ExpandItems(defs, v, stack));
      if items.None? then None else Some(List(items.value))
    case Obj(fields) =>
      var siblings, name := AllFields(ExpandFields(defs, v, stack)), LocalRef(fields);
      if siblings.None? then None
      else if name.None? then Some(Obj(siblings.value))
      else if !Defined(defs, name.value) || name.value in stack then None
      else
        OneLessUnused(defs, stack, name.value);
        var expanded := Expand(defs, defs[name.value], stack + [name.value]);
        if expanded.None? then None else Some(Obj(expanded.value.fields + siblings.value))
    case _ => Some(v)
  }

  function DefinitionsOf(schema: map<string, Value>): Definitions {
    if Get(schema, "$defs").Obj? then Get(schema, "$defs").fields else map[]
  }

  // The schema of a model without local references; None when it refers to nothing or to itself.
  function Inline(schema: map<string, Value>): (r: Option<Value>)
    ensures r.Some? ==> r.value.Obj?
  {
    Expand(DefinitionsOf(schema), Obj(schema), [])
  }

  // ---------------------------------------------------------------- one level at a time

  ghost predicate Child(v: Value, c: Value) {
    || (v.List? && c in v.items)
    || (v.Obj? && exists k :: k in v.fields && k in KeptKeys(v.fields) && v.fields[k] == c)
  }

  function RefOf(v: Value): Option<string> {
    if v.Obj? then LocalRef(v.fields) else None
  }

  lemma {:induction false} ChildIsSmaller(v: Value, c: Value)
    requires Child(v, c)
    ensures c < v
  {
    if v.Obj? {
      var k :| k in v.fields && k in KeptKeys(v.fields) && v.fields[k] == c;
    }
  }

  ghost predicate RefExpands(defs: Definitions, name: string, stack: seq<string>) {
    Defined(defs, name) && name !in stack && Expand(defs, defs[name], stack + [name]).Some?
  }

  lemma {:induction false} ExpandsWhen(defs: Definitions, v: Value, stack: seq<string>)
    ensures Expand(defs, v, stack).Some? <==>
            && (forall c :: Child(v, c) ==> Expand(defs, c, stack).Some?)
            && (RefOf(v).Some? ==> RefExpands(defs, RefOf(v).value, stack))
  {
    match v
    case List(items) =>
      assert forall i :: 0 <= i < |items| ==> Child(v, items[i]);
    case Obj(fields) =>
      assert forall k :: k in fields && k in KeptKeys(fields) ==> Child(v, fields[k]);
    case _ =>
  }

  // ---------------------------------------------------------------- nothing local is left

  predicate Clean(v: Value) {
    match v
    case List(items) => forall i :: 0 <= i < |items| ==> Clean(items[i])
    case Obj(fields) => "$defs" !in fields && LocalRef(fields).None? && forall k :: k in fields ==> Clean(fields[k])
    case _ => true
  }

  /** An inlined schema holds no local reference and no definitions, at any depth. */
  lemma {:induction false} NothingLocalIsLeft(defs: Definitions, v: Value, stack: seq<string>)
    requires Expand(defs, v, stack).Some?
    ensures Clean(Expand(defs, v, stack).value)
    decreases |Unused(defs, stack)|, v
  {
    var r := Expand(defs, v, stack).value;
    match v
    case List(items) =>
      forall i | 0 <= i < |items|
        ensures Clean(Expand(defs, items[i], stack).value)
      {
        NothingLocalIsLeft(defs, items[i], stack);
      }
    case Obj(fields) =>
      forall k | k in fields && k in KeptKeys(fields)
        ensures Clean(Expand(defs, fields[k], stack).value)
      {
        NothingLocalIsLeft(defs, fields[k], stack);
      }
      var name := LocalRef(fields);
      if name.Some? {
        OneLessUnused(defs, stack, name.value);
        NothingLocalIsLeft(defs, defs[name.value], stack + [name.value]);
      } else {
        PlainRefStaysPlain(defs, fields, stack);
      }
    case _ =>
  }

  lemma {:induction false} PlainRefStaysPlain(defs: Definitions, fields: map<string, Value>, stack: seq<string>)
    requires Expand(defs, Obj(fields), stack).Some? && LocalRef(fields).None?
    ensures LocalRef(Expand(defs, Obj(fields), stack).value.fields).None?
  {
    if "$ref" in fields {
      var e := Expand(defs, fields["$ref"], stack);
      assert fields["$ref"].Str? ==> e == Some(fields["$ref"]);
    }
  }

  /** Inlining leaves a schema without local references and definitions as it is. */
  lemma {:induction false} CleanIsUnchanged(defs: Definitions, v: Value, stack: seq<string>)
    requires Clean(v)
    ensures Expand(defs, v, stack) == Some(v)
    decreases v
  {
    match v
    case List(items) =>
      forall i | 0 <= i < |items|
        ensures Expand(defs, items[i], stack) == Some(items[i])
      {
        CleanIsUnchanged(defs, items[i], stack);
      }
      assert Expand(defs, v, stack).value.items == items;
    case Obj(fields) =>
      forall k | k in fields
        ensures Expand(defs, fields[k], stack) == Some(fields[k])
      {
        CleanIsUnchanged(defs, fields[k], stack);
      }
      assert KeptKeys(fields) == fields.Keys;
      assert Expand(defs, v, stack).value.fields == fields;
    case _ =>
  }

  // ---------------------------------------------------------------- the reference graph

  // The names of all local references that the expansion meets in the value itself.
  function Refs(v: Value): set<string> {
    match v
    case List(items) => set i, n | 0 <= i < |items| && n in Refs(items[i]) :: n
    case Obj(fields) =>
      (if LocalRef(fields).Some? then {LocalRef(fields).value} else {})
      + set k, n | k in fields && k in KeptKeys(fields) && n in Refs(fields[k]) :: n
    case _ => {}
  }

  lemma {:induction false} RefsOfParts(v: Value, n: string)
    ensures n in Refs(v) <==> RefOf(v) == Some(n) || exists c :: Child(v, c) && n in Refs(c)
  {
    match v
    case List(items) =>
      assert forall i :: 0 <= i < |items| ==> Child(v, items[i]);
    case Obj(fields) =>
      assert forall k :: k in fields && k in KeptKeys(fields) ==> Child(v, fields[k]);
    case _ =>
  }

  // Which definition refers to which; a name without a usable definition refers to nothing.
  function RefGraph(defs: Definitions, start: set<string>): Graph {
    var names := defs.Keys + start + set k, n | k in defs && n in Refs(defs[k]) :: n;
    map n | n in names :: if Defined(defs, n) then Refs(defs[n]) else {}
  }

  // The name is met when the value is expanded, directly or through other definitions.
  ghost predicate Meets(g: Graph, v: Value, n: string) {
    n in Refs(v) || exists m :: m in Refs(v) && Reaches(g, m, n)
  }

  // Every definition met exists and none leads back to itself.
  ghost predicate Resolvable(defs: Definitions, g: Graph, v: Value) {
    forall n :: Meets(g, v, n) ==> Defined(defs, n) && !Reaches(g, n, n)
  }

  // The graph knows the definitions and the names of the value.
  ghost predicate GraphFor(defs: Definitions, g: Graph, v: Value) {
    && Closed(g) && Refs(v) <= g.Keys
    && (forall n :: n in g && Defined(defs, n) ==> g[n] == Refs(defs[n]))
  }

  lemma {:induction false} GraphFits(defs: Definitions, v: Value)
    ensures GraphFor(defs, RefGraph(defs, Refs(v)), v)
  {
  }

  lemma {:induction false} ChildResolvable(defs: Definitions, g: Graph, v: Value, c: Value)
    requires GraphFor(defs, g, v) && Resolvable(defs, g, v) && Child(v, c)
    ensures GraphFor(defs, g, c) && Resolvable(defs, g, c) && Refs(c) <= Refs(v)
  {
    forall n | n in Refs(c)
      ensures n in Refs(v)
    {
      RefsOfParts(v, n);
    }
    forall n | Meets(g, c, n)
      ensures Meets(g, v, n)
    {
    }
  }

  lemma {:induction false} TargetResolvable(defs: Definitions, g: Graph, v: Value, name: string)
    requires GraphFor(defs, g, v) && Resolvable(defs, g, v) && name in Refs(v)
    ensures Defined(defs, name) && GraphFor(defs, g, defs[name]) && Resolvable(defs, g, defs[name])
  {
    assert Meets(g, v, name);
    forall n | Meets(g, defs[name], n)
      ensures Meets(g, v, n)
    {
      if n in Refs(defs[name]) {
        ReachesDirect(g, name, n);
      } else {
        var m :| m in Refs(defs[name]) && Reaches(g, m, n);
        ReachesDirect(g, name, m);
        ReachesTrans(g, name, m, n);
      }
    }
  }

  // Every open definition leads to whatever the value refers to.
  ghost predicate LeadsTo(g: Graph, stack: seq<string>, v: Value) {
    forall s, n :: s in stack && n in Refs(v) ==> Reaches(g, s, n)
  }

  lemma {:induction false} LeadsToTarget(defs: Definitions, g: Graph, stack: seq<string>, v: Value, name: string)
    requires GraphFor(defs, g, v) && LeadsTo(g, stack, v) && name in Refs(v) && Defined(defs, name)
    ensures LeadsTo(g, stack + [name], defs[name])
  {
    forall s, n | s in stack + [name] && n in Refs(defs[name])
      ensures Reaches(g, s, n)
    {
      ReachesDirect(g, name, n);
      if s in stack {
        ReachesTrans(g, s, name, n);
      }
    }
  }

  lemma {:induction false} ResolvableExpands(defs: Definitions, g: Graph, v: Value, stack: seq<string>)
    requires GraphFor(defs, g, v) && Resolvable(defs, g, v) && LeadsTo(g, stack, v)
    ensures Expand(defs, v, stack).Some?
    decreases |Unused(defs, stack)|, v
  {
    forall c | Child(v, c)
      ensures Expand(defs, c, stack).Some?
    {
      ChildResolvable(defs, g, v, c);
      ChildIsSmaller(v, c);
      ResolvableExpands(defs, g, c, stack);
    }
    var name := RefOf(v);
    if name.Some? {
      RefsOfParts(v, name.value);
      TargetResolvable(defs, g, v, name.value);
      LeadsToTarget(defs, g, stack, v, name.value);
      assert Meets(g, v, name.value);
      OneLessUnused(defs, stack, name.value);
      ResolvableExpands(defs, g, defs[name.value], stack + [name.value]);
    }
    ExpandsWhen(defs, v, stack);
  }

  // A reference met in an expanded value was itself expanded under the same stack.
  lemma {:induction false} RefWasExpanded(defs: Definitions, v: Value, stack: seq<string>, n: string)
    requires Expand(defs, v, stack).Some? && n in Refs(v)
    ensures RefExpands(defs, n, stack)
    decreases v
  {
    ExpandsWhen(defs, v, stack);
    RefsOfParts(v, n);
    if RefOf(v) != Some(n) {
      var c :| Child(v, c) && n in Refs(c);
      ChildIsSmaller(v, c);
      RefWasExpanded(defs, c, stack, n);
    }
  }

  // A stack of defined names, none twice, under which the last one was expanded.
  ghost predicate Followed(defs: Definitions, p: seq<string>) {
    && p != [] && (forall i :: 0 <= i < |p| ==> Defined(defs, p[i]))
    && (forall i, j :: 0 <= i < j < |p| ==> p[i] != p[j])
    && Expand(defs, defs[p[|p| - 1]], p).Some?
  }

  lemma {:induction false} FollowedFurther(defs: Definitions, p: seq<string>, name: string)
    requires Followed(defs, p) && RefExpands(defs, name, p)
    ensures Followed(defs, p + [name])
  {
    assert forall i :: 0 <= i < |p| ==> p[i] in p;
  }

  // Following references puts one name after the other on the stack, never one twice.
  lemma {:induction false} PathWasExpanded(defs: Definitions, g: Graph, v: Value, p: seq<string>)
    requires Expand(defs, v, []).Some? && GraphFor(defs, g, v) && IsPath(g, p) && p[0] in Refs(v)
    ensures Followed(defs, p)
    decreases |p|
  {
    var n := |p| - 1;
    if n == 0 {
      RefWasExpanded(defs, v, [], p[0]);
      assert [] + [p[0]] == p;
    } else {
      var front := p[..n];
      PathFront(g, p, front);
      PathWasExpanded(defs, g, v, front);
      RefWasExpanded(defs, defs[front[n - 1]], front, p[n]);
      FollowedFurther(defs, front, p[n]);
      assert p == front + [p[n]];
    }
  }

  /**
   * Inlining succeeds exactly when every definition that is met exists and none of them leads back
   * to itself.
   */
  lemma {:induction false} InlinesIffResolvable(defs: Definitions, v: Value)
    ensures Expand(defs, v, []).Some? <==> Resolvable(defs, RefGraph(defs, Refs(v)), v)
  {
    var g := RefGraph(defs, Refs(v));
    GraphFits(defs, v);
    if Resolvable(defs, g, v) {
      ResolvableExpands(defs, g, v, []);
    }
    if Expand(defs, v, []).Some? {
      forall n | Meets(g, v, n)
        ensures Defined(defs, n) && !Reaches(g, n, n)
      {
        ExpandedIsResolvable(defs, g, v, n);
      }
    }
  }

  lemma {:induction false} ExpandedIsResolvable(defs: Definitions, g: Graph, v: Value, n: string)
    requires Expand(defs, v, []).Some? && GraphFor(defs, g, v) && Meets(g, v, n)
    ensures Defined(defs, n) && !Reaches(g, n, n)
  {
    var p := PathTo(g, v, n);
    PathWasExpanded(defs, g, v, p);
    if Reaches(g, n, n) {
      var q :| PathFrom(g, n, n, q);
      var r := p + q[1..];
      PathsJoin(g, p, q);
      assert r[0] == p[0] && r[|p| - 1] == n && r[|r| - 1] == n;
      PathWasExpanded(defs, g, v, r);
    }
  }

  lemma {:induction false} PathTo(g: Graph, v: Value, n: string) returns (p: seq<string>)
    requires Meets(g, v, n) && Refs(v) <= g.Keys
    ensures IsPath(g, p) && p[0] in Refs(v) && p[|p| - 1] == n
  {
    if n in Refs(v) {
      p := [n];
    } else {
      var m :| m in Refs(v) && Reaches(g, m, n);
      p :| PathFrom(g, m, n, p);
    }
  }

  lemma {:induction false} PathFront(g: Graph, p: seq<string>, front: seq<string>)
    requires IsPath(g, p) && |p| > 1 && front == p[..|p| - 1]
    ensures IsPath(g, front) && front[0] == p[0] && p[|p| - 1] in g[front[|front| - 1]]
  {
    var n := |p| - 2;
    assert front[n] == p[n] && p[n + 1] in g[p[n]];
  }

  lemma {:induction false} PathsJoin(g: Graph, p: seq<string>, q: seq<string>)
    requires IsPath(g, p) && IsPath(g, q) && p[|p| - 1] == q[0]
    ensures IsPath(g, p + q[1..])
  {
    var r := p + q[1..];
    forall i | 0 <= i < |r| - 1
      ensures r[i + 1] in g[r[i]]
    {
      if i >= |p| - 1 {
        assert r[i] == q[i - (|p| - 1)] && r[i + 1] == q[i + 1 - (|p| - 1)];
      } else {
        assert r[i] == p[i] && r[i + 1] == p[i + 1];
      }
    }
  }

  // ---------------------------------------------------------------- substitution without a stack

  function SubstituteItems(defs: Definitions, v: Value, n: nat): (rs: seq<Option<Value>>)
    requires v.List?
    ensures |rs| == |v.items| && forall i :: 0 <= i < |rs| ==> rs[i] == Substitute(defs, v.items[i], n)
    decreases n, v, 0
  {
    seq(|v.items|, i requires 0 <= i < |v.items| => Substitute(defs, v.items[i], n))
  }

  function SubstituteFields(defs: Definitions, v: Value, n: nat): (rs: map<string, Option<Value>>)
    requires v.Obj?
    ensures rs.Keys == KeptKeys(v.fields) && forall k :: k in rs ==> rs[k] == Substitute(defs, v.fields[k], n)
    decreases n, v, 0
  {
    map k | k in v.fields && k in KeptKeys(v.fields) :: Substitute(defs, v.fields[k], n)
  }

  // Full substitution to a nesting of at most n references, siblings written over the definition.
  function Substitute(defs: Definitions, v: Value, n: nat): (r: Option<Value>)
    ensures r.Some? && v.Obj? ==> r.value.Obj?
    decreases n, v, 1
  {
    match v
    case List(_) =>
      var items := AllItems(SubstituteItems(defs, v, n));
      if items.None? then None else Some(List(items.value))
    case Obj(fields) =>
      var siblings, name := AllFields(SubstituteFields(defs, v, n)), LocalRef(fields);
      if siblings.None? then None
      else if name.None? then Some(Obj(siblings.value))
      else if n == 0 || !Defined(defs, name.value) then None
      else
        var target := Substitute(defs, defs[name.value], n - 1);
        if target.None? then None else Some(Obj(target.value.fields + siblings.value))
    case _ => Some(v)
  }

  lemma {:induction false} SubstitutesWhen(defs: Definitions, v: Value, n: nat)
    ensures Substitute(defs, v, n).Some? <==>
            && (forall c :: Child(v, c) ==> Substitute(defs, c, n).Some?)
            && (RefOf(v).Some? ==>
                  n > 0 && Defined(defs, RefOf(v).value) && Substitute(defs, defs[RefOf(v).value], n - 1).Some?)
  {
    match v
    case List(items) =>
      assert forall i :: 0 <= i < |items| ==> Child(v, items[i]);
    case Obj(fields) =>
      assert forall k :: k in fields && k in KeptKeys(fields) ==> Child(v, fields[k]);
    case _ =>
  }

  lemma {:induction false} PartSubstitutes(defs: Definitions, v: Value, n: nat, c: Value)
    requires Substitute(defs, v, n).Some? && Child(v, c)
    ensures Substitute(defs, c, n).Some?
  {
    SubstitutesWhen(defs, v, n);
  }

  lemma {:induction false} TargetSubstitutes(defs: Definitions, v: Value, n: nat)
    requires Substitute(defs, v, n).Some? && RefOf(v).Some?
    ensures n > 0 && Defined(defs, RefOf(v).value) && Substitute(defs, defs[RefOf(v).value], n - 1).Some?
  {
    SubstitutesWhen(defs, v, n);
  }

  ghost predicate SameBelow(defs: Definitions, v: Value, n: nat, m: nat) {
    forall c :: Child(v, c) ==> Substitute(defs, c, m) == Substitute(defs, c, n)
  }

  lemma {:induction false} DeeperBelow(defs: Definitions, v: Value, n: nat, m: nat)
    requires Substitute(defs, v, n).Some? && n <= m
    ensures SameBelow(defs, v, n, m)
    decreases n, v, 0
  {
    forall c | Child(v, c)
      ensures Substitute(defs, c, m) == Substitute(defs, c, n)
    {
      ChildIsSmaller(v, c);
      PartSubstitutes(defs, v, n, c);
      DeeperIsSame(defs, c, n, m);
    }
  }

  lemma {:induction false} DeeperIsSame(defs: Definitions, v: Value, n: nat, m: nat)
    requires Substitute(defs, v, n).Some? && n <= m
    ensures Substitute(defs, v, m) == Substitute(defs, v, n)
    decreases n, v, 1
  {
    DeeperBelow(defs, v, n, m);
    if RefOf(v).Some? {
      DeeperTarget(defs, v, n, m);
    } else {
      SameParts(defs, v, n, m);
    }
  }

  lemma {:induction false} DeeperTarget(defs: Definitions, v: Value, n: nat, m: nat)
    requires Substitute(defs, v, n).Some? && n <= m && RefOf(v).Some? && SameBelow(defs, v, n, m)
    ensures Substitute(defs, v, m) == Substitute(defs, v, n)
    decreases n, v, 0
  {
    TargetSubstitutes(defs, v, n);
    var target := defs[RefOf(v).value];
    DeeperIsSame(defs, target, n - 1, m - 1);
    SameTarget(defs, v, n, m, target);
  }

  lemma {:induction false} SameTarget(defs: Definitions, v: Value, n: nat, m: nat, target: Value)
    requires SameBelow(defs, v, n, m)
    requires RefOf(v).Some? && n > 0 && m > 0 && Defined(defs, RefOf(v).value) && target == defs[RefOf(v).value]
    requires Substitute(defs, target, m - 1) == Substitute(defs, target, n - 1)
    ensures Substitute(defs, v, m) == Substitute(defs, v, n)
  {
    forall k | k in v.fields && k in KeptKeys(v.fields)
      ensures SubstituteFields(defs, v, m)[k] == SubstituteFields(defs, v, n)[k]
    {
      assert Child(v, v.fields[k]);
    }
    assert SubstituteFields(defs, v, m) == SubstituteFields(defs, v, n);
  }

  lemma {:induction false} SameParts(defs: Definitions, v: Value, n: nat, m: nat)
    requires SameBelow(defs, v, n, m)
    requires RefOf(v).None?
    ensures Substitute(defs, v, m) == Substitute(defs, v, n)
  {
    match v
    case List(items) =>
      forall i | 0 <= i < |items|
        ensures SubstituteItems(defs, v, m)[i] == SubstituteItems(defs, v, n)[i]
      {
        assert Child(v, items[i]);
      }
      assert SubstituteItems(defs, v, m) == SubstituteItems(defs, v, n);
    case Obj(fields) =>
      forall k | k in fields && k in KeptKeys(fields)
        ensures SubstituteFields(defs, v, m)[k] == SubstituteFields(defs, v, n)[k]
      {
        assert Child(v, fields[k]);
      }
      assert SubstituteFields(defs, v, m) == SubstituteFields(defs, v, n);
    case _ =>
  }

  // Expansion and substitution agree on everything directly below.
  ghost predicate AgreeBelow(defs: Definitions, v: Value, n: nat, stack: seq<string>) {
    forall c :: Child(v, c) ==> Expand(defs, c, stack) == Substitute(defs, c, n)
  }

  lemma {:induction false} PartExpands(defs: Definitions, v: Value, stack: seq<string>, c: Value)
    requires Expand(defs, v, stack).Some? && Child(v, c)
    ensures Expand(defs, c, stack).Some?
  {
    ExpandsWhen(defs, v, stack);
  }

  lemma {:induction false} RefExpandsWhen(defs: Definitions, v: Value, stack: seq<string>)
    requires Expand(defs, v, stack).Some? && RefOf(v).Some?
    ensures RefExpands(defs, RefOf(v).value, stack)
  {
    ExpandsWhen(defs, v, stack);
  }

  // Expansion under a stack is substitution as deep as there are unused definitions.
  lemma {:induction false} ExpandSubstitutes(defs: Definitions, v: Value, stack: seq<string>)
    requires Expand(defs, v, stack).Some?
    ensures Substitute(defs, v, |Unused(defs, stack)|) == Expand(defs, v, stack)
    decreases |Unused(defs, stack)|, v
  {
    var n := |Unused(defs, stack)|;
    forall c | Child(v, c)
      ensures Substitute(defs, c, n) == Expand(defs, c, stack)
    {
      ChildIsSmaller(v, c);
      PartExpands(defs, v, stack, c);
      ExpandSubstitutes(defs, c, stack);
    }
    assert AgreeBelow(defs, v, n, stack);
    if RefOf(v).Some? {
      RefExpandsWhen(defs, v, stack);
      var name := RefOf(v).value;
      var target := defs[name];
      OneLessUnused(defs, stack, name);
      ExpandSubstitutes(defs, target, stack + [name]);
      ExpandsLikeDeeperTarget(defs, v, n, stack, target, |Unused(defs, stack + [name])|);
    } else {
      ExpandsLikeParts(defs, v, n, stack);
    }
  }

  // Substitution into the definition comes to an end within n references.
  ghost predicate Ends(defs: Definitions, name: string, n: nat) {
    Defined(defs, name) && Substitute(defs, defs[name], n).Some?
  }

  lemma {:induction false} EndsDeeper(defs: Definitions, name: string, n: nat, m: nat)
    requires Ends(defs, name, n) && n <= m
    ensures Ends(defs, name, m)
  {
    DeeperIsSame(defs, defs[name], n, m);
  }

  lemma {:induction false} LeastTrue(p: nat -> bool, n: nat) returns (m: nat)
    requires p(n)
    ensures m <= n && p(m) && (m > 0 ==> !p(m - 1))
  {
    if n > 0 && p(n - 1) {
      m := LeastTrue(p, n - 1);
    } else {
      m := n;
    }
  }

  lemma {:induction false} LeastDepth(defs: Definitions, name: string, n: nat) returns (m: nat)
    requires Ends(defs, name, n)
    ensures m <= n && Ends(defs, name, m) && (m > 0 ==> !Ends(defs, name, m - 1))
  {
    m := LeastTrue((k: nat) => Ends(defs, name, k), n);
  }

  // The open definitions need more depth than is left.
  ghost predicate TooDeep(defs: Definitions, stack: seq<string>, n: nat) {
    forall s :: s in stack && n > 0 ==> !Ends(defs, s, n - 1)
  }

  lemma {:induction false} TooDeepBelow(defs: Definitions, stack: seq<string>, n: nat, name: string, m: nat)
    requires TooDeep(defs, stack, n) && m < n && (m > 0 ==> !Ends(defs, name, m - 1))
    ensures TooDeep(defs, stack + [name], m)
  {
    if m > 0 {
      forall s | s in stack
        ensures !Ends(defs, s, m - 1)
      {
        NotEndingHigher(defs, s, m - 1, n - 1);
      }
    }
  }

  lemma {:induction false} NotEndingHigher(defs: Definitions, name: string, n: nat, m: nat)
    requires !Ends(defs, name, m) && n <= m
    ensures !Ends(defs, name, n)
  {
    if Ends(defs, name, n) {
      EndsDeeper(defs, name, n, m);
    }
  }

  // Substitution that comes to an end never meets an open definition, so the stack never objects.
  lemma {:induction false} SubstituteExpands(defs: Definitions, v: Value, n: nat, stack: seq<string>)
    requires Substitute(defs, v, n).Some? && TooDeep(defs, stack, n)
    ensures Expand(defs, v, stack) == Substitute(defs, v, n)
    decreases n, 2, v
  {
    forall c | Child(v, c)
      ensures Expand(defs, c, stack) == Substitute(defs, c, n)
    {
      ChildIsSmaller(v, c);
      PartSubstitutes(defs, v, n, c);
      SubstituteExpands(defs, c, n, stack);
    }
    assert AgreeBelow(defs, v, n, stack);
    if RefOf(v).Some? {
      TargetSubstitutes(defs, v, n);
      var name := RefOf(v).value;
      TargetExpands(defs, name, n, stack);
      ExpandsLikeTarget(defs, v, n, stack, defs[name]);
    } else {
      ExpandsLikeParts(defs, v, n, stack);
    }
  }

  lemma {:induction false} TargetExpands(defs: Definitions, name: string, n: nat, stack: seq<string>)
    requires n > 0 && Ends(defs, name, n - 1) && TooDeep(defs, stack, n)
    ensures name !in stack && Expand(defs, defs[name], stack + [name]) == Substitute(defs, defs[name], n - 1)
    decreases n, 1
  {
    var m := LeastDepth(defs, name, n - 1);
    NotOnStack(defs, name, n, stack);
    TooDeepBelow(defs, stack, n, name, m);
    EndsAndExpands(defs, name, m, n, stack + [name]);
  }

  lemma {:induction false} EndsAndExpands(defs: Definitions, name: string, m: nat, n: nat, stack: seq<string>)
    requires m < n && Ends(defs, name, m) && TooDeep(defs, stack, m)
    ensures Expand(defs, defs[name], stack) == Substitute(defs, defs[name], n - 1)
    decreases n, 0
  {
    SubstituteExpands(defs, defs[name], m, stack);
    DeeperIsSame(defs, defs[name], m, n - 1);
  }

  lemma {:induction false} NotOnStack(defs: Definitions, name: string, n: nat, stack: seq<string>)
    requires n > 0 && Ends(defs, name, n - 1) && TooDeep(defs, stack, n)
    ensures name !in stack
  {
  }

  lemma {:induction false} ExpandsLikeTarget(defs: Definitions, v: Value, n: nat, stack: seq<string>, target: Value)
    requires AgreeBelow(defs, v, n, stack)
    requires RefOf(v).Some? && n > 0 && RefOf(v).value !in stack
    requires Defined(defs, RefOf(v).value) && target == defs[RefOf(v).value]
    requires Expand(defs, target, stack + [RefOf(v).value]) == Substitute(defs, target, n - 1)
    ensures Expand(defs, v, stack) == Substitute(defs, v, n)
  {
    forall k | k in v.fields && k in KeptKeys(v.fields)
      ensures ExpandFields(defs, v, stack)[k] == SubstituteFields(defs, v, n)[k]
    {
      assert Child(v, v.fields[k]);
    }
    assert ExpandFields(defs, v, stack) == SubstituteFields(defs, v, n);
  }

  lemma {:induction false} ExpandsLikeDeeperTarget(
      defs: Definitions, v: Value, n: nat, stack: seq<string>, target: Value, m: nat)
    requires AgreeBelow(defs, v, n, stack)
    requires RefOf(v).Some? && m < n && RefOf(v).value !in stack
    requires Defined(defs, RefOf(v).value) && target == defs[RefOf(v).value]
    requires Substitute(defs, target, m).Some? && Expand(defs, target, stack + [RefOf(v).value]) == Substitute(defs, target, m)
    ensures Expand(defs, v, stack) == Substitute(defs, v, n)
  {
    DeeperIsSame(defs, target, m, n - 1);
    ExpandsLikeTarget(defs, v, n, stack, target);
  }

  lemma {:induction false} ExpandsLikeParts(defs: Definitions, v: Value, n: nat, stack: seq<string>)
    requires AgreeBelow(defs, v, n, stack)
    requires RefOf(v).None?
    ensures Expand(defs, v, stack) == Substitute(defs, v, n)
  {
    match v
    case List(items) =>
      forall i | 0 <= i < |items|
        ensures ExpandItems(defs, v, stack)[i] == SubstituteItems(defs, v, n)[i]
      {
        assert Child(v, items[i]);
      }
      assert ExpandItems(defs, v, stack) == SubstituteItems(defs, v, n);
    case Obj(fields) =>
      forall k | k in fields && k in KeptKeys(fields)
        ensures ExpandFields(defs, v, stack)[k] == SubstituteFields(defs, v, n)[k]
      {
        assert Child(v, fields[k]);
      }
      assert ExpandFields(defs, v, stack) == SubstituteFields(defs, v, n);
    case _ =>
  }

  /** Inlining yields a value exactly when full substitution comes to an end, and then the same one. */
  lemma {:induction false} InliningIsFullSubstitution(defs: Definitions, v: Value, r: Value)
    ensures Expand(defs, v, []) == Some(r) <==> exists n: nat :: Substitute(defs, v, n) == Some(r)
  {
    if Expand(defs, v, []) == Some(r) {
      ExpandSubstitutes(defs, v, []);
    }
    if n: nat :| Substitute(defs, v, n) == Some(r) {
      SubstituteExpands(defs, v, n, []);
    }
  }

  /**
   * A whole schema: inlining it against its own definitions ends, succeeds exactly when every
   * definition that is met exists and none leads back to itself, leaves nothing local, and gives what
   * full substitution gives.
   */
  lemma {:induction false} InlinedSchema(schema: map<string, Value>, r: Value)
    ensures var defs, root := DefinitionsOf(schema), Obj(schema);
            && (Inline(schema).Some? <==> Resolvable(defs, RefGraph(defs, Refs(root)), root))
            && (Inline(schema) == Some(r) <==> exists n: nat :: Substitute(defs, root, n) == Some(r))
            && (Inline(schema) == Some(r) ==> Clean(r))
  {
    var defs, root := DefinitionsOf(schema), Obj(schema);
    InlinesIffResolvable(defs, root);
    InliningIsFullSubstitution(defs, root, r);
    if Inline(schema) == Some(r) {
      NothingLocalIsLeft(defs, root, []);
    }
  }
}
