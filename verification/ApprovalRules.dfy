/**
 * What an approval keeps, adds and refuses, in terms of the specification and the selected entries.
 */
module ApprovalRules {
  import opened Results
  import opened AppSpecs
  import opened Approvals

  // The elements that satisfy the predicate, in their order.
  ghost function Chosen<T>(xs: seq<T>, p: T -> bool): seq<T> {
    if xs == [] then [] else (if p(xs[0]) then [xs[0]] else []) + Chosen(xs[1..], p)
  }

  lemma {:induction false} ChosenSnoc<T>(xs: seq<T>, x: T, p: T -> bool)
    ensures Chosen(xs + [x], p) == Chosen(xs, p) + if p(x) then [x] else []
  {
    if xs == [] {
      assert [x][1..] == [] && [] + [x] == [x];
    } else {
      ChosenSnoc(xs[1..], x, p);
      assert (xs + [x])[1..] == xs[1..] + [x];
    }
  }

  // ---------------------------------------------------------------- the approved entries

  ghost predicate ItemNamed(items: seq<Item>, id: string) {
    exists i :: 0 <= i < |items| && items[i].id == id
  }

  lemma {:induction false} NamedIff(items: seq<Item>, id: string)
    ensures id in Elements(ItemIds(items)) <==> ItemNamed(items, id)
  {
    if i :| 0 <= i < |items| && items[i].id == id {
      assert ItemIds(items)[i] == id;
    }
    if id in ItemIds(items) {
      var i :| 0 <= i < |ItemIds(items)| && ItemIds(items)[i] == id;
    }
  }

  lemma {:induction false} OfKindChosen(selected: seq<Selection>, kind: EntryKind)
    ensures OfKind(selected, kind) == Chosen(selected, (s: Selection) => s.kind == kind)
    decreases |selected|
  {
    if selected != [] {
      var n := |selected| - 1;
      OfKindChosen(selected[..n], kind);
      ChosenSnoc(selected[..n], selected[n], (s: Selection) => s.kind == kind);
      assert selected == selected[..n] + [selected[n]];
    }
  }

  // The items are these entries, in their order, with id and text.
  ghost predicate TakenOver(items: seq<Item>, entries: seq<Selection>) {
    |items| == |entries| && forall i :: 0 <= i < |items| ==> items[i].id == entries[i].id && items[i].text == entries[i].text
  }

  /**
   * The approved document has the goal of the approval and the users of the source, the selected
   * entries of each kind in their order, the given criteria, and no open question.
   */
  lemma {:induction false} ApprovedMeans(source: AppSpec, goal: string, selected: seq<Selection>, criteria: seq<Criterion>)
    ensures var spec := Approved(source, goal, selected, criteria);
            && spec.goal == goal && spec.targetUsers == source.targetUsers && spec.openQuestions == []
            && spec.acceptanceCriteria == criteria
            && TakenOver(spec.features, Chosen(selected, (s: Selection) => s.kind == FeatureEntry))
            && TakenOver(spec.dataRequirements, Chosen(selected, (s: Selection) => s.kind == DataEntry))
            && TakenOver(spec.interfaceRequirements, Chosen(selected, (s: Selection) => s.kind == InterfaceEntry))
            && TakenOver(spec.constraints, Chosen(selected, (s: Selection) => s.kind == ConstraintEntry))
  {
    OfKindChosen(selected, FeatureEntry);
    OfKindChosen(selected, DataEntry);
    OfKindChosen(selected, InterfaceEntry);
    OfKindChosen(selected, ConstraintEntry);
  }

  // ---------------------------------------------------------------- the criteria

  // The last acceptance text that is given for the feature; an empty one is none.
  ghost predicate Gives(selected: seq<Selection>, id: string, text: string) {
    exists i :: GivesAt(selected, id, text, i)
  }

  ghost predicate GivesAt(selected: seq<Selection>, id: string, text: string, i: int) {
    && 0 <= i < |selected| && selected[i].id == id && selected[i].acceptance == Some(text) && text != ""
    && forall j :: i < j < |selected| && selected[j].id == id ==> selected[j].acceptance in {None, Some("")}
  }

  lemma {:induction false} GivesIff(selected: seq<Selection>, id: string, text: string)
    ensures Replacement(selected, id) == Some(text) <==> Gives(selected, id, text)
    decreases |selected|
  {
    if selected != [] {
      var n := |selected| - 1;
      GivesIff(selected[..n], id, text);
      if selected[n].id == id && selected[n].acceptance !in {None, Some("")} {
        assert GivesAt(selected, id, selected[n].acceptance.value, n);
        assert Gives(selected, id, text) ==> selected[n].acceptance == Some(text);
      } else {
        GivesEarlier(selected, id, text);
      }
    }
  }

  lemma {:induction false} GivesEarlier(selected: seq<Selection>, id: string, text: string)
    requires selected != []
    requires var last := selected[|selected| - 1]; last.id == id ==> last.acceptance in {None, Some("")}
    ensures Gives(selected, id, text) <==> Gives(selected[..|selected| - 1], id, text)
  {
    var front := selected[..|selected| - 1];
    if i :| GivesAt(selected, id, text, i) {
      assert GivesAt(front, id, text, i);
    }
    if i :| GivesAt(front, id, text, i) {
      assert GivesAt(selected, id, text, i);
    }
  }

  // The feature is approved with the text it had, and nobody gave it a new acceptance text.
  ghost predicate AsItWas(source: AppSpec, features: seq<Selection>, id: string) {
    && (exists i, j :: SameEntry(source, features, id, i, j))
    && forall text :: !Gives(features, id, text)
  }

  ghost predicate SameEntry(source: AppSpec, features: seq<Selection>, id: string, i: int, j: int) {
    && 0 <= i < |features| && 0 <= j < |source.features| && features[i].id == id && source.features[j].id == id
    && features[i].text == source.features[j].text
  }

  // The criterion has sources, and all of them are approved as they were.
  ghost predicate StillHolds(source: AppSpec, features: seq<Selection>, c: Criterion) {
    c.sourceIds != [] && forall k :: 0 <= k < |c.sourceIds| ==> AsItWas(source, features, c.sourceIds[k])
  }

  lemma {:induction false} AsItWasIff(source: AppSpec, features: seq<Selection>, id: string)
    ensures Unchanged(source, Entries(features), features, id) <==> AsItWas(source, features, id)
  {
    forall text
      ensures Replacement(features, id) == Some(text) <==> Gives(features, id, text)
    {
      GivesIff(features, id, text);
    }
    if Replacement(features, id).Some? {
      assert Gives(features, id, Replacement(features, id).value);
    }
    SameItemIff(source, features, id);
  }

  lemma {:induction false} SameItemIff(source: AppSpec, features: seq<Selection>, id: string)
    ensures (exists f :: f in Entries(features) && f.id == id && f in source.features) <==>
            exists i, j :: SameEntry(source, features, id, i, j)
  {
    if f :| f in Entries(features) && f.id == id && f in source.features {
      var i :| 0 <= i < |features| && Entries(features)[i] == f;
      var j :| 0 <= j < |source.features| && source.features[j] == f;
      assert SameEntry(source, features, id, i, j);
    }
    if i, j :| SameEntry(source, features, id, i, j) {
      assert Entries(features)[i] == source.features[j];
      assert Entries(features)[i] in Entries(features);
    }
  }

  lemma {:induction false} KeptChosen(source: AppSpec, features: seq<Selection>, cs: seq<Criterion>)
    ensures KeptCriteria(source, Entries(features), features, cs) == Chosen(cs, (c: Criterion) => StillHolds(source, features, c))
    decreases |cs|
  {
    if cs != [] {
      var n := |cs| - 1;
      KeptChosen(source, features, cs[..n]);
      ChosenSnoc(cs[..n], cs[n], (c: Criterion) => StillHolds(source, features, c));
      assert cs == cs[..n] + [cs[n]];
      KeepsIff(source, features, cs[n]);
    }
  }

  lemma {:induction false} KeepsIff(source: AppSpec, features: seq<Selection>, c: Criterion)
    ensures KeepsCriterion(source, Entries(features), features, c) <==> StillHolds(source, features, c)
  {
    forall k | 0 <= k < |c.sourceIds|
      ensures Unchanged(source, Entries(features), features, c.sourceIds[k]) <==> AsItWas(source, features, c.sourceIds[k])
    {
      AsItWasIff(source, features, c.sourceIds[k]);
    }
  }

  // One of the criteria names the feature among its sources.
  ghost predicate Named(cs: seq<Criterion>, id: string) {
    exists i, k :: 0 <= i < |cs| && 0 <= k < |cs[i].sourceIds| && cs[i].sourceIds[k] == id
  }

  lemma {:induction false} CoveredIff(cs: seq<Criterion>, id: string)
    ensures CoveredBy(cs, id) <==> Named(cs, id)
  {
    if c :| c in cs && id in c.sourceIds {
      var i :| 0 <= i < |cs| && cs[i] == c;
      var k :| 0 <= k < |c.sourceIds| && c.sourceIds[k] == id;
      assert cs[i].sourceIds[k] == id;
    }
    if i, k :| 0 <= i < |cs| && 0 <= k < |cs[i].sourceIds| && cs[i].sourceIds[k] == id {
      assert cs[i] in cs;
    }
  }

  // The criterion of feature i, if the kept ones leave it out: its own text, under a fresh id.
  ghost predicate AddedFor(kept: seq<Criterion>, features: seq<Selection>, tokens: nat -> string, i: nat, more: seq<Criterion>)
    requires i < |features|
  {
    if Named(kept, features[i].id) then more == []
    else |more| == 1 && more[0].id == tokens(i) && more[0].sourceIds == [features[i].id] && Gives(features, features[i].id, more[0].text)
  }

  // One after the other, for all features.
  ghost predicate AddedForAll(kept: seq<Criterion>, features: seq<Selection>, tokens: nat -> string, n: nat, added: seq<Criterion>)
    requires n <= |features|
    decreases n
  {
    if n == 0 then added == []
    else exists front, more :: added == front + more && AddedForAll(kept, features, tokens, n - 1, front)
           && AddedFor(kept, features, tokens, n - 1, more)
  }

  lemma {:induction false} NewAreAdded(kept: seq<Criterion>, features: seq<Selection>, tokens: nat -> string, n: nat)
    requires n <= |features| && NewCriteria(kept, Entries(features)[..n], features, tokens).Some?
    ensures AddedForAll(kept, features, tokens, n, NewCriteria(kept, Entries(features)[..n], features, tokens).value)
    decreases n
  {
    if n > 0 {
      var more := LastAdded(kept, features, tokens, n - 1);
      NewAreAdded(kept, features, tokens, n - 1);
      var front := NewCriteria(kept, Entries(features)[..n - 1], features, tokens).value;
      assert NewCriteria(kept, Entries(features)[..n], features, tokens).value == front + more;
    }
  }

  lemma {:induction false} LastAdded(kept: seq<Criterion>, features: seq<Selection>, tokens: nat -> string, i: nat)
    returns (more: seq<Criterion>)
    requires i < |features| && NewCriteria(kept, Entries(features)[..i + 1], features, tokens).Some?
    ensures NewCriteria(kept, Entries(features)[..i], features, tokens).Some? && AddedFor(kept, features, tokens, i, more)
    ensures NewCriteria(kept, Entries(features)[..i + 1], features, tokens).value ==
            NewCriteria(kept, Entries(features)[..i], features, tokens).value + more
  {
    var items := Entries(features)[..i + 1];
    assert items[..i] == Entries(features)[..i] && items[i].id == features[i].id;
    CoveredIff(kept, features[i].id);
    var text := Replacement(features, features[i].id);
    if text.Some? {
      GivesIff(features, features[i].id, text.value);
    }
    more := if CoveredBy(kept, features[i].id) then [] else [Criterion(tokens(i), text.value, [features[i].id])];
    var front := NewCriteria(kept, items[..i], features, tokens).value;
    assert front + [] == front;
  }

  /**
   * An approval has criteria exactly when every feature left out by the kept ones brings a text.  They
   * are the criteria of the source whose features are all approved as they were, in their order, and
   * then one for each feature they leave out, with the last text that was given for it.
   */
  lemma {:induction false} CriteriaMean(source: AppSpec, selected: seq<Selection>, tokens: nat -> string)
    ensures var features := Chosen(selected, (s: Selection) => s.kind == FeatureEntry);
            var kept := Chosen(source.acceptanceCriteria, (c: Criterion) => StillHolds(source, features, c));
            var criteria := ApprovedCriteria(source, selected, tokens);
            && (criteria.Some? <==>
                  forall i :: 0 <= i < |features| ==> Named(kept, features[i].id) || exists text :: Gives(features, features[i].id, text))
            && (criteria.Some? ==>
                  exists added :: criteria.value == kept + added && AddedForAll(kept, features, tokens, |features|, added))
  {
    var features := OfKind(selected, FeatureEntry);
    OfKindChosen(selected, FeatureEntry);
    KeptChosen(source, features, source.acceptanceCriteria);
    var kept := KeptCriteria(source, Entries(features), features, source.acceptanceCriteria);
    AllGivenIff(kept, features, tokens);
    var added := NewCriteria(kept, Entries(features), features, tokens);
    if added.Some? {
      assert Entries(features)[..|features|] == Entries(features);
      NewAreAdded(kept, features, tokens, |features|);
      assert ApprovedCriteria(source, selected, tokens).value == kept + added.value;
    }
  }

  lemma {:induction false} AllGivenIff(kept: seq<Criterion>, features: seq<Selection>, tokens: nat -> string)
    ensures NewCriteria(kept, Entries(features), features, tokens).Some? <==>
            forall i :: 0 <= i < |features| ==> Named(kept, features[i].id) || exists text :: Gives(features, features[i].id, text)
  {
    NewCriteriaExist(kept, Entries(features), features, tokens);
    forall i | 0 <= i < |features|
      ensures Uncovered(kept, Entries(features)[i], features) <==>
              !(Named(kept, features[i].id) || exists text :: Gives(features, features[i].id, text))
    {
      UncoveredIff(kept, features, Entries(features)[i]);
    }
    assert forall f :: f in Entries(features) <==> exists i :: 0 <= i < |features| && Entries(features)[i] == f;
  }

  lemma {:induction false} UncoveredIff(kept: seq<Criterion>, features: seq<Selection>, f: Item)
    ensures Uncovered(kept, f, features) <==> !(Named(kept, f.id) || exists text :: Gives(features, f.id, text))
  {
    CoveredIff(kept, f.id);
    if Replacement(features, f.id).Some? {
      GivesIff(features, f.id, Replacement(features, f.id).value);
    }
    if text :| Gives(features, f.id, text) {
      GivesIff(features, f.id, text);
    }
  }

  // ---------------------------------------------------------------- the checklist

  /**
   * The first pass refuses an entry that is no feature when it brings an acceptance text, whatever its
   * id, and otherwise when no list of the source has its id; data and interface entries are then looked
   * up in their own lists.
   */
  lemma {:induction false} ChecklistMeans(source: AppSpec, s: Selection)
    ensures Stray(source, s) <==>
            s.kind != FeatureEntry
            && (s.acceptance.Some?
                || !(ItemNamed(source.features, s.id) || ItemNamed(source.dataRequirements, s.id)
                     || ItemNamed(source.interfaceRequirements, s.id) || ItemNamed(source.constraints, s.id)))
    ensures StrayError(s) == if s.acceptance.Some? then AcceptanceOutsideFeature(s.id) else UnknownEntry(s.id)
    ensures s.id in OwnIds(source, DataEntry) <==> ItemNamed(source.dataRequirements, s.id)
    ensures s.id in OwnIds(source, InterfaceEntry) <==> ItemNamed(source.interfaceRequirements, s.id)
  {
    NamedIff(source.features, s.id);
    NamedIff(source.dataRequirements, s.id);
    NamedIff(source.interfaceRequirements, s.id);
    NamedIff(source.constraints, s.id);
  }

  // An approval that passes the checklist: a feature at least, and every other entry in its place.
  ghost predicate InPlace(source: AppSpec, s: Selection) {
    match s.kind
    case FeatureEntry => true
    case DataEntry => s.acceptance.None? && ItemNamed(source.dataRequirements, s.id)
    case InterfaceEntry => s.acceptance.None? && ItemNamed(source.interfaceRequirements, s.id)
    case ConstraintEntry =>
      && s.acceptance.None?
      && (ItemNamed(source.features, s.id) || ItemNamed(source.dataRequirements, s.id)
          || ItemNamed(source.interfaceRequirements, s.id) || ItemNamed(source.constraints, s.id))
  }

  /** Exactly these approvals pass. */
  lemma {:induction false} FitsMeans(source: AppSpec, selected: seq<Selection>)
    ensures ChecklistFits(source, selected) <==>
            && (exists i :: 0 <= i < |selected| && selected[i].kind == FeatureEntry)
            && forall i :: 0 <= i < |selected| ==> InPlace(source, selected[i])
  {
    forall i | 0 <= i < |selected|
      ensures EntryFits(source, selected[i]) <==> InPlace(source, selected[i])
    {
      ChecklistMeans(source, selected[i]);
      InPlaceIff(source, selected[i]);
    }
    if i :| 0 <= i < |selected| && selected[i].kind == FeatureEntry {
      assert selected[i] in OfKind(selected, FeatureEntry);
    }
    if OfKind(selected, FeatureEntry) != [] {
      assert OfKind(selected, FeatureEntry)[0] in selected;
    }
  }

  lemma {:induction false} InPlaceIff(source: AppSpec, s: Selection)
    ensures EntryFits(source, s) <==> InPlace(source, s)
  {
    NamedIff(source.features, s.id);
    NamedIff(source.dataRequirements, s.id);
    NamedIff(source.interfaceRequirements, s.id);
    NamedIff(source.constraints, s.id);
  }
}
