/** What a coerced item of a product-intent document is made of, and what the field types demand. */
module DocumentRules {
  import opened Results
  import opened Json
  import opened Texts
  import opened AppSpecs
  import opened AppSpecDocuments

  predicate LetterOrDigit(c: char) {
    'A' <= c <= 'Z' || 'a' <= c <= 'z' || '0' <= c <= '9'
  }

  /** An id starts with a letter or digit and has up to 64 of those, "_" and "-"; a text up to 2,000 characters. */
  lemma {:induction false} FieldsMean(s: string)
    ensures ValidId(s) <==>
            && 1 <= |s| <= 64 && LetterOrDigit(s[0])
            && forall i :: 0 <= i < |s| ==> LetterOrDigit(s[i]) || s[i] == '_' || s[i] == '-'
    ensures ValidText(s) <==> 1 <= |s| <= 2000 && Strip(s) == s
  {
  }

  /** A made id is the prefix with a digest of prefix, index and text; each retry digests the last one. */
  lemma {:induction false} MadeIdMeans(prefix: string, text: string, index: nat, k: nat, digest: string -> string)
    ensures FirstId(prefix, text, index, digest) == prefix + "_" + digest(prefix + ":" + Decimal(index) + ":" + text)
    ensures var first := FirstId(prefix, text, index, digest);
            && Retried(prefix, first, 0, digest) == first
            && Retried(prefix, first, k + 1, digest) == prefix + "_" + digest(Retried(prefix, first, k, digest) + ":dup")
  {
  }

  // The first of the three names that the object has.
  ghost predicate TitledBy(fields: map<string, Value>, v: Value) {
    if "text" in fields then v == fields["text"]
    else if "label" in fields then v == fields["label"]
    else if "title" in fields then v == fields["title"]
    else v == Null
  }

  // Its own id, blanks made underscores, if that is an id nobody has.
  ghost predicate OwnId(fields: map<string, Value>, used: set<string>, id: string) {
    && "id" in fields && fields["id"].Str? && ValidId(id) && id !in used
    && |id| == |Strip(fields["id"].s)|
    && forall i :: 0 <= i < |id| ==> id[i] == if Strip(fields["id"].s)[i] == ' ' then '_' else Strip(fields["id"].s)[i]
  }

  lemma {:induction false} OwnIdIff(fields: map<string, Value>, used: set<string>)
    ensures var id := CleanId(Get(fields, "id"));
            (ValidId(id) && id !in used <==> exists own :: OwnId(fields, used, own))
            && forall own :: OwnId(fields, used, own) ==> own == id
  {
    var id := CleanId(Get(fields, "id"));
    if ValidId(id) && id !in used {
      assert OwnId(fields, used, id);
    }
    forall own | OwnId(fields, used, own)
      ensures own == id
    {
      assert |own| == |id| && forall i :: 0 <= i < |id| ==> own[i] == id[i];
    }
  }

  /**
   * A plain string becomes an item with a made id.  An object takes its text from the first of its three
   * names, keeps its own id if that is free and valid and is given a made one otherwise, and keeps its
   * sources where the list has them.  Anything else is refused.
   */
  lemma {:induction false} ItemMeans(v: Value, prefix: string, index: nat, used: set<string>, withSources: bool, digest: string -> string, title: Value)
    ensures var r := CoerceItem(v, prefix, index, used, withSources, digest);
            match v
            case Str(s) => r == Some(Draft(StableId(prefix, Strip(s), index, used, digest), Strip(s), []))
            case Obj(fields) =>
              && r.Some?
              && (TitledBy(fields, title) ==> r.value.text == if title.Str? then Strip(title.s) else "")
              && (forall own :: OwnId(fields, used, own) ==> r.value.id == own)
              && ((forall own :: !OwnId(fields, used, own)) ==>
                    r.value.id == StableId(prefix, if r.value.text == "" then prefix else r.value.text, index, used, digest))
              && r.value.sources ==
                 if withSources && "source_ids" in fields && fields["source_ids"].List? then fields["source_ids"].items else []
            case _ => r == None
  {
    if v.Obj? {
      OwnIdIff(v.fields, used);
    }
  }

  /** A missing list stays missing, null is empty, and more than 50 items are refused. */
  lemma {:induction false} ListMeans(g: Group, used: set<string>, digest: string -> string)
    ensures var r := CoerceList(g, used, digest);
            && (g.value == Some(Null) ==> r == Some([]))
            && (g.value.Some? && g.value.value.List? && |g.value.value.items| <= 50 ==>
                  r == CoerceItems(g.value.value.items, g, used, digest))
            && (g.value.None? || (g.value.value != Null && (!g.value.value.List? || |g.value.value.items| > 50)) ==> r == None)
  {
  }

  /** The five lists in the order in which they draw their ids, each with its own prefix. */
  lemma {:induction false} ListsMean(raw: RawSpec)
    ensures Groups(raw) ==
            [Group("feat", false, raw.features), Group("data", false, raw.dataRequirements), Group("ui", false, raw.interfaceRequirements),
             Group("con", false, raw.constraints), Group("ac", true, raw.acceptanceCriteria)]
  {
  }

  // The entries of the document, list by list.
  ghost function EntryIds(spec: AppSpec): seq<string> {
    seq(|spec.features|, i requires 0 <= i < |spec.features| => spec.features[i].id)
    + seq(|spec.dataRequirements|, i requires 0 <= i < |spec.dataRequirements| => spec.dataRequirements[i].id)
    + seq(|spec.interfaceRequirements|, i requires 0 <= i < |spec.interfaceRequirements| => spec.interfaceRequirements[i].id)
    + seq(|spec.constraints|, i requires 0 <= i < |spec.constraints| => spec.constraints[i].id)
    + seq(|spec.acceptanceCriteria|, i requires 0 <= i < |spec.acceptanceCriteria| => spec.acceptanceCriteria[i].id)
  }

  // No two entries of the document have one id.
  ghost predicate NoSharedIds(spec: AppSpec) {
    forall i, j :: 0 <= i < j < |EntryIds(spec)| ==> EntryIds(spec)[i] != EntryIds(spec)[j]
  }

  lemma {:induction false} EntriesAreAll(spec: AppSpec)
    ensures AllIds(spec) == EntryIds(spec)
  {
    var f, d, u, c, a := spec.features, spec.dataRequirements, spec.interfaceRequirements, spec.constraints, spec.acceptanceCriteria;
    assert ItemIds(f) == seq(|f|, i requires 0 <= i < |f| => f[i].id);
    assert ItemIds(d) == seq(|d|, i requires 0 <= i < |d| => d[i].id);
    assert ItemIds(u) == seq(|u|, i requires 0 <= i < |u| => u[i].id);
    assert ItemIds(c) == seq(|c|, i requires 0 <= i < |c| => c[i].id);
    assert CriterionIds(a) == seq(|a|, i requires 0 <= i < |a| => a[i].id);
  }

  // What becomes of a criterion's sources: those that are features, or all features if none is.
  ghost predicate TiedTo(features: seq<Item>, before: Criterion, after: Criterion) {
    && after.id == before.id && after.text == before.text
    && if exists x :: x in before.sourceIds && IsFeatureId(features, x)
       then forall x :: x in after.sourceIds <==> x in before.sourceIds && IsFeatureId(features, x)
       else |after.sourceIds| == |features| && forall i :: 0 <= i < |features| ==> after.sourceIds[i] == features[i].id
  }

  ghost predicate IsFeatureId(features: seq<Item>, id: string) {
    exists i :: 0 <= i < |features| && features[i].id == id
  }

  lemma {:induction false} TiedMeans(c: Criterion, features: seq<Item>)
    ensures TiedTo(features, c, Tied(c, ItemIds(features)))
  {
    var ids := ItemIds(features);
    forall x
      ensures x in Elements(ids) <==> IsFeatureId(features, x)
    {
      if i :| 0 <= i < |features| && features[i].id == x {
        assert ids[i] == x;
      }
      if x in ids {
        var i :| 0 <= i < |ids| && ids[i] == x;
      }
    }
    var sources := Filtered(c.sourceIds, Elements(ids));
    if sources != [] {
      assert sources[0] in sources;
    }
  }

  /**
   * The last check passes exactly when there are features and criteria, or questions instead, and no id
   * is used twice; it changes nothing but the sources of the criteria.
   */
  lemma {:induction false} SettledMeans(spec: AppSpec)
    ensures var r := Settle(spec);
            && (r.Some? <==> (spec.openQuestions != [] || (spec.features != [] && spec.acceptanceCriteria != [])) && NoSharedIds(spec))
            && (r.Some? ==>
                  && r.value == spec.(acceptanceCriteria := r.value.acceptanceCriteria)
                  && |r.value.acceptanceCriteria| == |spec.acceptanceCriteria|
                  && forall i :: 0 <= i < |spec.acceptanceCriteria| ==>
                       TiedTo(spec.features, spec.acceptanceCriteria[i], r.value.acceptanceCriteria[i]))
  {
    EntriesAreAll(spec);
    forall i | 0 <= i < |spec.acceptanceCriteria|
      ensures TiedTo(spec.features, spec.acceptanceCriteria[i], Tied(spec.acceptanceCriteria[i], ItemIds(spec.features)))
    {
      TiedMeans(spec.acceptanceCriteria[i], spec.features);
    }
  }
}
