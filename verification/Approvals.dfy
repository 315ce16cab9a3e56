/**
 * The acceptance criteria of a requirements approval, services/app_spec.py, and what the document
 * checks make of the approved specification.
 */
module Approvals {
  import opened Results
  import opened Texts
  import opened AppSpecs
  import opened AppSpecDocuments

  datatype EntryKind = FeatureEntry | DataEntry | InterfaceEntry | ConstraintEntry

  datatype Selection = Selection(id: string, text: string, kind: EntryKind, acceptance: Option<string>)

  datatype ApprovalError =
    | NoFeature | AcceptanceOutsideFeature(id: string) | UnknownEntry(id: string) | MissingAcceptance(id: string)

  // ---------------------------------------------------------------- the selected entries

  function OfKind(selected: seq<Selection>, kind: EntryKind): (r: seq<Selection>)
    ensures forall s :: s in r <==> s in selected && s.kind == kind
  {
    if selected == [] then []
    else
      var n := |selected| - 1;
      assert forall s :: s in selected <==> s in selected[..n] || s == selected[n];
      OfKind(selected[..n], kind) + if selected[n].kind == kind then [selected[n]] else []
  }

  function Entries(selected: seq<Selection>): (items: seq<Item>)
    ensures |items| == |selected| && forall i :: 0 <= i < |selected| ==> items[i] == Item(selected[i].id, selected[i].text)
  {
    seq(|selected|, i requires 0 <= i < |selected| => Item(selected[i].id, selected[i].text))
  }

  // The first entry that is not in the list.
  ghost predicate FirstOutside(selected: seq<Selection>, source: set<string>, i: int) {
    0 <= i < |selected| && selected[i].id !in source && forall j :: 0 <= j < i ==> selected[j].id in source
  }

  /** The entries of one kind; a new entry is only allowed where the user may add one. */
  method ResolveItems(selected: seq<Selection>, source: set<string>, allowNew: bool) returns (r: Result<seq<Item>, ApprovalError>)
    ensures r.Ok? <==> allowNew || forall s :: s in selected ==> s.id in source
    ensures r.Ok? ==> r.value == Entries(selected)
    ensures r.Err? ==> exists i :: FirstOutside(selected, source, i) && r.error == UnknownEntry(selected[i].id)
  {
    var items: seq<Item> := [];
    for i := 0 to |selected|
      invariant items == Entries(selected[..i])
      invariant allowNew || forall s :: s in selected[..i] ==> s.id in source
    {
      if selected[i].id !in source && !allowNew {
        assert selected[i] in selected && forall j :: 0 <= j < i ==> selected[..i][j] in selected[..i];
        assert FirstOutside(selected, source, i);
        return Err(UnknownEntry(selected[i].id));
      }
      items := items + [Item(selected[i].id, selected[i].text)];
    }
    assert selected[..|selected|] == selected;
    return Ok(items);
  }

  // ---------------------------------------------------------------- acceptance criteria

  // The acceptance text given for a feature; of several the last counts, an empty one does not.
  function Replacement(selected: seq<Selection>, id: string): (r: Option<string>)
    ensures r.Some? ==> r.value != "" && exists s :: s in selected && s.id == id && s.acceptance == r
    ensures r.None? ==> forall s :: s in selected && s.id == id ==> s.acceptance == None || s.acceptance == Some("")
  {
    if selected == [] then None
    else
      var n := |selected| - 1;
      var last := selected[n];
      assert forall s :: s in selected <==> s in selected[..n] || s == last;
      if last.id == id && last.acceptance.Some? && last.acceptance.value != "" then last.acceptance
      else Replacement(selected[..n], id)
  }

  // Approved as it was, without a new acceptance text.
  predicate Unchanged(source: AppSpec, features: seq<Item>, selected: seq<Selection>, id: string) {
    && Replacement(selected, id).None?
    && exists f :: f in features && f.id == id && f in source.features
  }

  predicate KeepsCriterion(source: AppSpec, features: seq<Item>, selected: seq<Selection>, c: Criterion) {
    c.sourceIds != [] && forall k :: 0 <= k < |c.sourceIds| ==> Unchanged(source, features, selected, c.sourceIds[k])
  }

  function KeptCriteria(source: AppSpec, features: seq<Item>, selected: seq<Selection>, cs: seq<Criterion>): (r: seq<Criterion>)
    ensures forall c :: c in r <==> c in cs && KeepsCriterion(source, features, selected, c)
    ensures |r| <= |cs|
  {
    if cs == [] then []
    else
      var n := |cs| - 1;
      assert forall c :: c in cs <==> c in cs[..n] || c == cs[n];
      KeptCriteria(source, features, selected, cs[..n]) + if KeepsCriterion(source, features, selected, cs[n]) then [cs[n]] else []
  }

  predicate CoveredBy(cs: seq<Criterion>, id: string) {
    exists c :: c in cs && id in c.sourceIds
  }

  // The new criteria for the features that no kept one covers; `tokens` are fresh criterion ids.
  function NewCriteria(kept: seq<Criterion>, features: seq<Item>, selected: seq<Selection>, tokens: nat -> string): Option<seq<Criterion>> {
    if features == [] then Some([])
    else
      var n := |features| - 1;
      var front, text := NewCriteria(kept, features[..n], selected, tokens), Replacement(selected, features[n].id);
      if front.None? then None
      else if CoveredBy(kept, features[n].id) then front
      else if text.None? then None
      else Some(front.value + [Criterion(tokens(n), text.value, [features[n].id])])
  }

  predicate Uncovered(kept: seq<Criterion>, feature: Item, selected: seq<Selection>) {
    !CoveredBy(kept, feature.id) && Replacement(selected, feature.id).None?
  }

  // The first feature without acceptance.
  ghost predicate FirstUncovered(kept: seq<Criterion>, features: seq<Item>, selected: seq<Selection>, i: int) {
    && 0 <= i < |features| && Uncovered(kept, features[i], selected)
    && forall j :: 0 <= j < i ==> !Uncovered(kept, features[j], selected)
  }

  /**
   * Succeeds exactly when every approved feature is covered by a kept criterion or has an acceptance
   * text of its own.  The result keeps, in order, exactly the criteria whose sources are all
   * unchanged approved features, and adds one criterion for each feature they leave out.
   */
  method BuildAcceptance(source: AppSpec, features: seq<Item>, selected: seq<Selection>, tokens: nat -> string)
    returns (r: Result<seq<Criterion>, ApprovalError>)
    ensures var kept := KeptCriteria(source, features, selected, source.acceptanceCriteria);
            && (r.Ok? <==> forall f :: f in features ==> !Uncovered(kept, f, selected))
            && (r.Ok? ==> NewCriteria(kept, features, selected, tokens).Some?
                          && r.value == kept + NewCriteria(kept, features, selected, tokens).value)
    ensures r.Err? ==>
              var kept := KeptCriteria(source, features, selected, source.acceptanceCriteria);
              exists i :: FirstUncovered(kept, features, selected, i) && r.error == MissingAcceptance(features[i].id)
  {
    var kept := KeptCriteria(source, features, selected, source.acceptanceCriteria);
    var added: seq<Criterion> := [];
    for i := 0 to |features|
      invariant Building(kept, features, selected, tokens, i, added)
    {
      var feature := features[i];
      if CoveredBy(kept, feature.id) {
        CoveredNext(kept, features, selected, tokens, i, added);
      } else {
        var acceptance := Replacement(selected, feature.id);
        if acceptance.None? {
          UncoveredFirst(kept, features, selected, i);
          return Err(MissingAcceptance(feature.id));
        }
        AddedNext(kept, features, selected, tokens, i, added);
        added := added + [Criterion(tokens(i), acceptance.value, [feature.id])];
      }
    }
    NoneUncovered(kept, features, selected, tokens, added);
    return Ok(kept + added);
  }

  // The criteria added for the first i features, all of which have acceptance.
  ghost predicate Building(
      kept: seq<Criterion>, features: seq<Item>, selected: seq<Selection>, tokens: nat -> string, i: nat, added: seq<Criterion>)
  {
    && i <= |features| && NewCriteria(kept, features[..i], selected, tokens) == Some(added)
    && forall j :: 0 <= j < i ==> !Uncovered(kept, features[j], selected)
  }

  lemma {:induction false} CoveredNext(
      kept: seq<Criterion>, features: seq<Item>, selected: seq<Selection>, tokens: nat -> string, i: nat, added: seq<Criterion>)
    requires Building(kept, features, selected, tokens, i, added) && i < |features| && CoveredBy(kept, features[i].id)
    ensures Building(kept, features, selected, tokens, i + 1, added)
  {
    assert features[..i + 1][..i] == features[..i];
  }

  lemma {:induction false} AddedNext(
      kept: seq<Criterion>, features: seq<Item>, selected: seq<Selection>, tokens: nat -> string, i: nat, added: seq<Criterion>)
    requires Building(kept, features, selected, tokens, i, added) && i < |features| && !CoveredBy(kept, features[i].id)
    requires Replacement(selected, features[i].id).Some?
    ensures var text := Replacement(selected, features[i].id).value;
            Building(kept, features, selected, tokens, i + 1, added + [Criterion(tokens(i), text, [features[i].id])])
  {
    assert features[..i + 1][..i] == features[..i];
  }

  lemma {:induction false} UncoveredFirst(kept: seq<Criterion>, features: seq<Item>, selected: seq<Selection>, i: nat)
    requires i < |features| && Uncovered(kept, features[i], selected)
    requires forall j :: 0 <= j < i ==> !Uncovered(kept, features[j], selected)
    ensures FirstUncovered(kept, features, selected, i) && exists f :: f in features && Uncovered(kept, f, selected)
  {
    assert features[i] in features;
  }

  lemma {:induction false} NoneUncovered(
      kept: seq<Criterion>, features: seq<Item>, selected: seq<Selection>, tokens: nat -> string, added: seq<Criterion>)
    requires Building(kept, features, selected, tokens, |features|, added)
    ensures NewCriteria(kept, features, selected, tokens) == Some(added)
    ensures forall f :: f in features ==> !Uncovered(kept, f, selected)
  {
    assert features[..|features|] == features;
  }

  ghost predicate NamesFeatures(c: Criterion, features: seq<Item>) {
    c.sourceIds != [] && forall x :: x in c.sourceIds ==> x in ItemIds(features)
  }

  /** Every criterion of a successful approval names approved features only, and every feature is covered. */
  lemma {:induction false} AcceptanceCovers(source: AppSpec, features: seq<Item>, selected: seq<Selection>, tokens: nat -> string)
    requires NewCriteria(KeptCriteria(source, features, selected, source.acceptanceCriteria), features, selected, tokens).Some?
    ensures var kept := KeptCriteria(source, features, selected, source.acceptanceCriteria);
            var all := kept + NewCriteria(kept, features, selected, tokens).value;
            && (forall f :: f in features ==> CoveredBy(all, f.id))
            && (forall c :: c in all ==> NamesFeatures(c, features))
  {
    var kept := KeptCriteria(source, features, selected, source.acceptanceCriteria);
    var added := NewCriteria(kept, features, selected, tokens).value;
    NewCriteriaCover(kept, features, selected, tokens);
    forall c | c in kept
      ensures NamesFeatures(c, features)
    {
      KeptNamesFeatures(source, features, selected, c);
    }
    forall c | c in added
      ensures NamesFeatures(c, features)
    {
      OneSourceNames(c, features);
    }
    forall f | f in features
      ensures CoveredBy(kept + added, f.id)
    {
      CoveredByEither(kept, added, f.id);
    }
  }

  lemma {:induction false} OneSourceNames(c: Criterion, features: seq<Item>)
    requires |c.sourceIds| == 1 && c.sourceIds[0] in ItemIds(features)
    ensures NamesFeatures(c, features)
  {
  }

  lemma {:induction false} CoveredByEither(kept: seq<Criterion>, added: seq<Criterion>, id: string)
    requires CoveredBy(kept, id) || CoveredBy(added, id)
    ensures CoveredBy(kept + added, id)
  {
    if CoveredBy(kept, id) {
      var c :| c in kept && id in c.sourceIds;
      assert c in kept + added;
    } else {
      var c :| c in added && id in c.sourceIds;
      assert c in kept + added;
    }
  }

  lemma {:induction false} KeptNamesFeatures(source: AppSpec, features: seq<Item>, selected: seq<Selection>, c: Criterion)
    requires KeepsCriterion(source, features, selected, c)
    ensures NamesFeatures(c, features)
  {
    forall x | x in c.sourceIds
      ensures x in ItemIds(features)
    {
      var k :| 0 <= k < |c.sourceIds| && c.sourceIds[k] == x;
      assert Unchanged(source, features, selected, c.sourceIds[k]);
      var f :| f in features && f.id == x && f in source.features;
      var i :| 0 <= i < |features| && features[i] == f;
      assert ItemIds(features)[i] == x;
    }
  }

  lemma {:induction false} NewCriteriaCover(kept: seq<Criterion>, features: seq<Item>, selected: seq<Selection>, tokens: nat -> string)
    requires NewCriteria(kept, features, selected, tokens).Some?
    ensures var added := NewCriteria(kept, features, selected, tokens).value;
            && (forall f :: f in features && !CoveredBy(kept, f.id) ==> CoveredBy(added, f.id))
            && (forall c :: c in added ==> |c.sourceIds| == 1 && c.sourceIds[0] in ItemIds(features))
            && (forall c :: c in added ==> exists i: nat :: i < |features| && c.id == tokens(i))
            && |added| <= |features|
    decreases |features|
  {
    if features != [] {
      var n := |features| - 1;
      NewCriteriaCover(kept, features[..n], selected, tokens);
      var front, added := NewCriteria(kept, features[..n], selected, tokens).value, NewCriteria(kept, features, selected, tokens).value;
      assert features == features[..n] + [features[n]];
      assert ItemIds(features) == ItemIds(features[..n]) + [features[n].id];
      forall f | f in features && !CoveredBy(kept, f.id)
        ensures CoveredBy(added, f.id)
      {
        if f in features[..n] {
          var c :| c in front && f.id in c.sourceIds;
          assert c in added;
        } else {
          assert f == features[n];
          assert added[|front|].sourceIds == [f.id] && added[|front|] in added;
        }
      }
      forall c | c in added
        ensures |c.sourceIds| == 1 && c.sourceIds[0] in ItemIds(features) && exists i: nat :: i < |features| && c.id == tokens(i)
      {
        if c in front {
          var i: nat :| i < |features[..n]| && c.id == tokens(i);
        } else {
          assert c.id == tokens(n);
        }
      }
    }
  }

  // ---------------------------------------------------------------- the approved document

  // The specification that an approval writes: the selected entries with their criteria, no questions.
  function Approved(source: AppSpec, goal: string, selected: seq<Selection>, criteria: seq<Criterion>): AppSpec {
    AppSpec(goal, source.targetUsers, Entries(OfKind(selected, FeatureEntry)), Entries(OfKind(selected, DataEntry)),
            Entries(OfKind(selected, InterfaceEntry)), Entries(OfKind(selected, ConstraintEntry)), criteria, [])
  }

  lemma {:induction false} TiedToNamed(cs: seq<Criterion>, features: seq<Item>)
    requires forall c :: c in cs ==> NamesFeatures(c, features)
    ensures TiedAll(cs, ItemIds(features)) == cs
  {
    forall i | 0 <= i < |cs|
      ensures Tied(cs[i], ItemIds(features)) == cs[i]
    {
      assert cs[i] in cs;
      FilteredAll(cs[i].sourceIds, Elements(ItemIds(features)));
    }
  }

  // ---------------------------------------------------------------- the checklist

  function KnownIds(source: AppSpec): set<string> {
    Elements(ItemIds(source.features)) + Elements(ItemIds(source.dataRequirements))
    + Elements(ItemIds(source.interfaceRequirements)) + Elements(ItemIds(source.constraints))
  }

  // An entry other than a feature brings no acceptance text and is known, data and interface entries
  // within their own list.
  predicate EntryFits(source: AppSpec, s: Selection) {
    s.kind == FeatureEntry
    || (&& s.acceptance.None? && s.id in KnownIds(source)
        && (s.kind == DataEntry || s.kind == InterfaceEntry ==> s.id in OwnIds(source, s.kind)))
  }

  predicate ChecklistFits(source: AppSpec, selected: seq<Selection>) {
    OfKind(selected, FeatureEntry) != [] && forall s :: s in selected ==> EntryFits(source, s)
  }

  function ApprovedCriteria(source: AppSpec, selected: seq<Selection>, tokens: nat -> string): Option<seq<Criterion>> {
    var entries := OfKind(selected, FeatureEntry);
    var kept := KeptCriteria(source, Entries(entries), entries, source.acceptanceCriteria);
    var added := NewCriteria(kept, Entries(entries), entries, tokens);
    if added.None? then None else Some(kept + added.value)
  }

  // An entry that the first pass over the list refuses.
  predicate Stray(source: AppSpec, s: Selection) {
    s.kind != FeatureEntry && (s.acceptance.Some? || s.id !in KnownIds(source))
  }

  function StrayError(s: Selection): ApprovalError {
    if s.acceptance.Some? then AcceptanceOutsideFeature(s.id) else UnknownEntry(s.id)
  }

  ghost predicate FirstStray(source: AppSpec, selected: seq<Selection>, i: int) {
    0 <= i < |selected| && Stray(source, selected[i]) && forall j :: 0 <= j < i ==> !Stray(source, selected[j])
  }

  // The ids that a data or an interface entry may have.
  function OwnIds(source: AppSpec, kind: EntryKind): set<string> {
    Elements(ItemIds(if kind == DataEntry then source.dataRequirements else source.interfaceRequirements))
  }

  // The one error of a refused approval: a list without features, else the first stray entry, else the
  // first data entry and then the first interface entry of another list, else the first feature
  // without acceptance.
  ghost predicate Reports(source: AppSpec, selected: seq<Selection>, error: ApprovalError) {
    var entries, data, screens := OfKind(selected, FeatureEntry), OfKind(selected, DataEntry), OfKind(selected, InterfaceEntry);
    var dataIds, screenIds := OwnIds(source, DataEntry), OwnIds(source, InterfaceEntry);
    if entries == [] then error == NoFeature
    else if exists s :: s in selected && Stray(source, s) then
      exists i :: FirstStray(source, selected, i) && error == StrayError(selected[i])
    else if exists s :: s in data && s.id !in dataIds then
      exists i :: FirstOutside(data, dataIds, i) && error == UnknownEntry(data[i].id)
    else if exists s :: s in screens && s.id !in screenIds then
      exists i :: FirstOutside(screens, screenIds, i) && error == UnknownEntry(screens[i].id)
    else
      exists i :: FirstUncovered(KeptBy(source, selected), Entries(entries), entries, i) && error == MissingAcceptance(entries[i].id)
  }

  lemma {:induction false} ReportsStray(source: AppSpec, selected: seq<Selection>, error: ApprovalError)
    requires OfKind(selected, FeatureEntry) != []
    requires exists i :: FirstStray(source, selected, i) && error == StrayError(selected[i])
    ensures Reports(source, selected, error) && !ChecklistFits(source, selected)
  {
    var i :| FirstStray(source, selected, i) && error == StrayError(selected[i]);
    assert selected[i] in selected && Stray(source, selected[i]);
  }

  lemma {:induction false} ReportsOutside(source: AppSpec, selected: seq<Selection>, kind: EntryKind, error: ApprovalError)
    requires OfKind(selected, FeatureEntry) != [] && (forall s :: s in selected ==> !Stray(source, s))
    requires kind == DataEntry || kind == InterfaceEntry
    requires kind == InterfaceEntry ==> forall s :: s in OfKind(selected, DataEntry) ==> s.id in OwnIds(source, DataEntry)
    requires exists i :: FirstOutside(OfKind(selected, kind), OwnIds(source, kind), i) && error == UnknownEntry(OfKind(selected, kind)[i].id)
    ensures Reports(source, selected, error) && !ChecklistFits(source, selected)
  {
    var entries := OfKind(selected, kind);
    var i :| FirstOutside(entries, OwnIds(source, kind), i) && error == UnknownEntry(entries[i].id);
    assert entries[i] in entries && entries[i].id !in OwnIds(source, kind);
  }

  // The first pass over the list.
  method CheckEntries(source: AppSpec, selected: seq<Selection>) returns (error: Option<ApprovalError>)
    ensures error.None? <==> forall s :: s in selected ==> !Stray(source, s)
    ensures error.Some? ==>
              exists i :: FirstStray(source, selected, i) && error == Some(StrayError(selected[i]))
  {
    var known := KnownIds(source);
    for i := 0 to |selected|
      invariant forall j :: 0 <= j < i ==> !Stray(source, selected[j])
    {
      var entry := selected[i];
      assert entry in selected;
      assert Stray(source, entry) ==> FirstStray(source, selected, i);
      if entry.kind != FeatureEntry && entry.acceptance.Some? {
        return Some(AcceptanceOutsideFeature(entry.id));
      }
      if entry.kind != FeatureEntry && entry.id !in known {
        return Some(UnknownEntry(entry.id));
      }
    }
    return None;
  }

  /**
   * The checklist of an approval: fails on an entry that does not fit, then on a feature without
   * acceptance, and otherwise gives the approved specification that goes to the document checks.
   */
  method ApproveChecklist(source: AppSpec, goal: string, selected: seq<Selection>, tokens: nat -> string)
    returns (r: Result<AppSpec, ApprovalError>)
    ensures r.Err? && (r.error.NoFeature? || r.error.AcceptanceOutsideFeature? || r.error.UnknownEntry?) <==>
              !ChecklistFits(source, selected)
    ensures r.Err? ==> Reports(source, selected, r.error)
    ensures ChecklistFits(source, selected) ==>
              var criteria := ApprovedCriteria(source, selected, tokens);
              if criteria.None? then r.Err? && r.error.MissingAcceptance?
              else r == Ok(Approved(source, goal, selected, criteria.value))
  {
    var entries := OfKind(selected, FeatureEntry);
    if entries == [] {
      return Err(NoFeature);
    }
    var stray := CheckEntries(source, selected);
    if stray.Some? {
      ReportsStray(source, selected, stray.value);
      return Err(stray.value);
    }
    FitsUnlessOutside(source, selected);
    var features := ResolveItems(entries, {}, true);
    var data := ResolveItems(OfKind(selected, DataEntry), OwnIds(source, DataEntry), false);
    if data.Err? {
      ReportsOutside(source, selected, DataEntry, data.error);
      return Err(data.error);
    }
    var screens := ResolveItems(OfKind(selected, InterfaceEntry), OwnIds(source, InterfaceEntry), false);
    if screens.Err? {
      ReportsOutside(source, selected, InterfaceEntry, screens.error);
      return Err(screens.error);
    }
    var constraints := ResolveItems(OfKind(selected, ConstraintEntry), {}, true);
    var criteria := BuildAcceptance(source, features.value, entries, tokens);
    CriteriaDecide(source, selected, tokens, criteria);
    if criteria.Err? {
      return Err(criteria.error);
    }
    return Ok(AppSpec(goal, source.targetUsers, features.value, data.value, screens.value, constraints.value, criteria.value, []));
  }

  lemma {:induction false} FitsUnlessOutside(source: AppSpec, selected: seq<Selection>)
    requires OfKind(selected, FeatureEntry) != [] && forall s :: s in selected ==> !Stray(source, s)
    ensures ChecklistFits(source, selected) <==>
            && (forall s :: s in OfKind(selected, DataEntry) ==> s.id in OwnIds(source, DataEntry))
            && (forall s :: s in OfKind(selected, InterfaceEntry) ==> s.id in OwnIds(source, InterfaceEntry))
  {
  }

  lemma {:induction false} CriteriaDecide(
      source: AppSpec, selected: seq<Selection>, tokens: nat -> string, r: Result<seq<Criterion>, ApprovalError>)
    requires ChecklistFits(source, selected) && forall s :: s in selected ==> !Stray(source, s)
    requires var entries, kept := OfKind(selected, FeatureEntry), KeptBy(source, selected);
             && (r.Ok? <==> forall f :: f in Entries(entries) ==> !Uncovered(kept, f, entries))
             && (r.Ok? ==> NewCriteria(kept, Entries(entries), entries, tokens).Some?
                           && r.value == kept + NewCriteria(kept, Entries(entries), entries, tokens).value)
             && (r.Err? ==> exists i :: FirstUncovered(kept, Entries(entries), entries, i)
                                        && r.error == MissingAcceptance(Entries(entries)[i].id))
    ensures ApprovedCriteria(source, selected, tokens) == if r.Ok? then Some(r.value) else None
    ensures r.Err? ==> Reports(source, selected, r.error)
  {
    var entries := OfKind(selected, FeatureEntry);
    NewCriteriaExist(KeptBy(source, selected), Entries(entries), entries, tokens);
  }

  lemma {:induction false} NewCriteriaExist(kept: seq<Criterion>, features: seq<Item>, selected: seq<Selection>, tokens: nat -> string)
    ensures NewCriteria(kept, features, selected, tokens).Some? <==>
            forall f :: f in features ==> !Uncovered(kept, f, selected)
    decreases |features|
  {
    if features != [] {
      var n := |features| - 1;
      NewCriteriaExist(kept, features[..n], selected, tokens);
      assert features[n] in features && forall f :: f in features[..n] ==> f in features;
      if NewCriteria(kept, features, selected, tokens).Some? {
        forall f | f in features
          ensures !Uncovered(kept, f, selected)
        {
          assert f in features[..n] || f == features[n];
        }
      }
    }
  }

  // ---------------------------------------------------------------- what the document checks make of it

  function SelectedIds(selected: seq<Selection>): (ids: seq<string>)
    ensures |ids| == |selected| && forall i :: 0 <= i < |selected| ==> ids[i] == selected[i].id
  {
    seq(|selected|, i requires 0 <= i < |selected| => selected[i].id)
  }

  // The criteria of the source that the approval keeps.
  function KeptBy(source: AppSpec, selected: seq<Selection>): seq<Criterion> {
    var entries := OfKind(selected, FeatureEntry);
    KeptCriteria(source, Entries(entries), entries, source.acceptanceCriteria)
  }

  // What the schema of an approval demands: 1 to 50 entries with valid ids and texts.
  predicate WellFormed(selected: seq<Selection>) {
    1 <= |selected| <= MAX_LIST && forall i :: 0 <= i < |selected| ==> EntryOk(selected[i])
  }

  predicate EntryOk(s: Selection) {
    ValidId(s.id) && ValidText(s.text) && (s.acceptance.Some? ==> ValidText(s.acceptance.value))
  }

  // A document that has passed the checks.
  predicate SettledSource(source: AppSpec) {
    SpecOk(source) && Settle(source) == Some(source)
  }

  // New criterion ids are valid, differ from each other and from all ids in sight.
  ghost predicate Fresh(tokens: nat -> string, source: AppSpec, selected: seq<Selection>) {
    && (forall i: nat :: i < |selected| ==>
          ValidId(tokens(i)) && tokens(i) !in AllIds(source) && tokens(i) !in SelectedIds(selected))
    && Different(tokens, |selected|)
  }

  ghost predicate Different(tokens: nat -> string, n: nat) {
    forall i: nat, j: nat :: i < j < n ==> tokens(i) != tokens(j)
  }

  // No selected entry has taken the id of a criterion that is kept.
  predicate Apart(selected: seq<Selection>, kept: seq<Criterion>) {
    forall x :: x in SelectedIds(selected) ==> x !in CriterionIds(kept)
  }

  // ---- the ids of the approved document

  lemma {:induction false} OfKindSize(selected: seq<Selection>, kind: EntryKind)
    ensures |OfKind(selected, kind)| <= |selected|
    decreases |selected|
  {
    if selected != [] {
      OfKindSize(selected[..|selected| - 1], kind);
    }
  }

  function KindIds(selected: seq<Selection>, kind: EntryKind): seq<string> {
    ItemIds(Entries(OfKind(selected, kind)))
  }

  lemma {:induction false} KindIdsSnoc(selected: seq<Selection>, s: Selection, kind: EntryKind)
    ensures KindIds(selected + [s], kind) == KindIds(selected, kind) + if s.kind == kind then [s.id] else []
  {
    assert (selected + [s])[..|selected|] == selected;
  }

  // The ids of all entries, kind by kind.
  function FrontIds(selected: seq<Selection>): seq<string> {
    KindIds(selected, FeatureEntry) + KindIds(selected, DataEntry) + KindIds(selected, InterfaceEntry) + KindIds(selected, ConstraintEntry)
  }

  lemma {:induction false} FrontIdsSnoc(selected: seq<Selection>, s: Selection)
    ensures multiset(FrontIds(selected + [s])) == multiset(FrontIds(selected)) + multiset{s.id}
  {
    KindIdsSnoc(selected, s, FeatureEntry);
    KindIdsSnoc(selected, s, DataEntry);
    KindIdsSnoc(selected, s, InterfaceEntry);
    KindIdsSnoc(selected, s, ConstraintEntry);
  }

  lemma {:induction false} KindsPartition(selected: seq<Selection>)
    ensures multiset(FrontIds(selected)) == multiset(SelectedIds(selected))
    decreases |selected|
  {
    if selected != [] {
      var n := |selected| - 1;
      var front, last := selected[..n], selected[n];
      KindsPartition(front);
      assert selected == front + [last];
      assert SelectedIds(selected) == SelectedIds(front) + [last.id];
      FrontIdsSnoc(front, last);
    }
  }

  lemma {:induction false} FrontIsSelected(selected: seq<Selection>)
    ensures Distinct(FrontIds(selected)) <==> Distinct(SelectedIds(selected))
    ensures forall x :: x in FrontIds(selected) <==> x in SelectedIds(selected)
  {
    KindsPartition(selected);
    if Distinct(SelectedIds(selected)) {
      DistinctByMultiset(SelectedIds(selected), FrontIds(selected));
    }
    if Distinct(FrontIds(selected)) {
      DistinctByMultiset(FrontIds(selected), SelectedIds(selected));
    }
    assert forall x :: x in FrontIds(selected) <==> x in multiset(FrontIds(selected));
    assert forall x :: x in SelectedIds(selected) <==> x in multiset(SelectedIds(selected));
  }

  lemma {:induction false} CriterionIdsAppend(a: seq<Criterion>, b: seq<Criterion>)
    ensures CriterionIds(a + b) == CriterionIds(a) + CriterionIds(b)
  {
  }

  // ---- the ids of its criteria

  lemma {:induction false} KeptDistinct(source: AppSpec, features: seq<Item>, selected: seq<Selection>, cs: seq<Criterion>)
    requires Distinct(CriterionIds(cs))
    ensures Distinct(CriterionIds(KeptCriteria(source, features, selected, cs)))
    ensures forall x :: x in CriterionIds(KeptCriteria(source, features, selected, cs)) ==> x in CriterionIds(cs)
    decreases |cs|
  {
    if cs != [] {
      var n := |cs| - 1;
      var front := KeptCriteria(source, features, selected, cs[..n]);
      assert cs == cs[..n] + [cs[n]];
      CriterionIdsAppend(cs[..n], [cs[n]]);
      DistinctParts(CriterionIds(cs[..n]), CriterionIds([cs[n]]));
      KeptDistinct(source, features, selected, cs[..n]);
      CriterionIdsAppend(front, [cs[n]]);
      DistinctParts(CriterionIds(front), CriterionIds([cs[n]]));
    }
  }

  lemma {:induction false} AddedDistinct(kept: seq<Criterion>, features: seq<Item>, selected: seq<Selection>, tokens: nat -> string)
    requires NewCriteria(kept, features, selected, tokens).Some? && Different(tokens, |features|)
    ensures var ids := CriterionIds(NewCriteria(kept, features, selected, tokens).value);
            Distinct(ids) && forall x :: x in ids ==> TokenBelow(tokens, |features|, x)
    decreases |features|
  {
    if features != [] {
      var n := |features| - 1;
      AddedDistinct(kept, features[..n], selected, tokens);
      var front, all := NewCriteria(kept, features[..n], selected, tokens).value, NewCriteria(kept, features, selected, tokens).value;
      if all != front {
        var last := all[|front|];
        assert all == front + [last] && last.id == tokens(n) && TokenBelow(tokens, n + 1, tokens(n));
        CriterionIdsAppend(front, [last]);
        DistinctParts(CriterionIds(front), CriterionIds([last]));
      }
    }
  }

  // One of the first n new ids.
  ghost predicate TokenBelow(tokens: nat -> string, n: nat, x: string) {
    exists i: nat :: i < n && x == tokens(i)
  }

  lemma {:induction false} SourceCriteriaDistinct(source: AppSpec)
    requires Distinct(AllIds(source))
    ensures Distinct(CriterionIds(source.acceptanceCriteria))
    ensures forall x :: x in CriterionIds(source.acceptanceCriteria) ==> x in AllIds(source)
  {
    var front := ItemIds(source.features) + ItemIds(source.dataRequirements) + ItemIds(source.interfaceRequirements) + ItemIds(source.constraints);
    DistinctParts(front, CriterionIds(source.acceptanceCriteria));
  }

  lemma {:induction false} ApprovedCriteriaDistinct(source: AppSpec, selected: seq<Selection>, tokens: nat -> string)
    requires SettledSource(source) && Fresh(tokens, source, selected) && ApprovedCriteria(source, selected, tokens).Some?
    ensures var ids := CriterionIds(ApprovedCriteria(source, selected, tokens).value);
            && Distinct(ids)
            && ((forall x :: x in SelectedIds(selected) ==> x !in ids) <==> Apart(selected, KeptBy(source, selected)))
  {
    var entries, kept := OfKind(selected, FeatureEntry), KeptBy(source, selected);
    var added := NewCriteria(kept, Entries(entries), entries, tokens).value;
    OfKindSize(selected, FeatureEntry);
    SourceCriteriaDistinct(source);
    KeptDistinct(source, Entries(entries), entries, source.acceptanceCriteria);
    AddedDistinct(kept, Entries(entries), entries, tokens);
    CriterionIdsAppend(kept, added);
    DistinctParts(CriterionIds(kept), CriterionIds(added));
  }

  lemma {:induction false} ApprovedIdsDistinct(source: AppSpec, goal: string, selected: seq<Selection>, tokens: nat -> string)
    requires SettledSource(source) && Fresh(tokens, source, selected) && ApprovedCriteria(source, selected, tokens).Some?
    ensures Distinct(AllIds(Approved(source, goal, selected, ApprovedCriteria(source, selected, tokens).value))) <==>
            Distinct(SelectedIds(selected)) && Apart(selected, KeptBy(source, selected))
  {
    var criteria := ApprovedCriteria(source, selected, tokens).value;
    assert AllIds(Approved(source, goal, selected, criteria)) == FrontIds(selected) + CriterionIds(criteria);
    FrontIsSelected(selected);
    ApprovedCriteriaDistinct(source, selected, tokens);
    DistinctParts(FrontIds(selected), CriterionIds(criteria));
  }

  // ---- its fields

  lemma {:induction false} EntriesAreOk(selected: seq<Selection>, kind: EntryKind)
    requires WellFormed(selected)
    ensures ItemsOk(Entries(OfKind(selected, kind)))
  {
    var entries := OfKind(selected, kind);
    OfKindSize(selected, kind);
    forall i | 0 <= i < |entries|
      ensures ItemOk(Entries(entries)[i])
    {
      assert entries[i] in entries && entries[i] in selected;
    }
  }

  lemma {:induction false} AddedAreOk(kept: seq<Criterion>, features: seq<Item>, selected: seq<Selection>, tokens: nat -> string, c: Criterion)
    requires NewCriteria(kept, features, selected, tokens).Some? && c in NewCriteria(kept, features, selected, tokens).value
    requires (forall i: nat :: i < |features| ==> ValidId(tokens(i))) && (forall f :: f in features ==> ValidId(f.id))
    requires forall s :: s in selected && s.acceptance.Some? ==> ValidText(s.acceptance.value)
    ensures CriterionOk(c)
    decreases |features|
  {
    if features != [] {
      var n := |features| - 1;
      var front := NewCriteria(kept, features[..n], selected, tokens).value;
      if c in front {
        AddedAreOk(kept, features[..n], selected, tokens, c);
      } else {
        assert features[n] in features;
        assert c == Criterion(tokens(n), Replacement(selected, features[n].id).value, [features[n].id]);
      }
    }
  }

  lemma {:induction false} ApprovedCriterionOk(source: AppSpec, selected: seq<Selection>, tokens: nat -> string, c: Criterion)
    requires SettledSource(source) && WellFormed(selected) && Fresh(tokens, source, selected)
    requires ApprovedCriteria(source, selected, tokens).Some? && c in ApprovedCriteria(source, selected, tokens).value
    ensures CriterionOk(c)
  {
    var entries, kept := OfKind(selected, FeatureEntry), KeptBy(source, selected);
    if c in kept {
      var i :| 0 <= i < |source.acceptanceCriteria| && source.acceptanceCriteria[i] == c;
      assert CriterionOk(source.acceptanceCriteria[i]);
    } else {
      var features := Entries(entries);
      EntriesAreOk(selected, FeatureEntry);
      forall f | f in features
        ensures ValidId(f.id)
      {
        var i :| 0 <= i < |features| && features[i] == f;
        assert ItemOk(features[i]);
      }
      OfKindSize(selected, FeatureEntry);
      AddedAreOk(kept, features, entries, tokens, c);
    }
  }

  lemma {:induction false} ApprovedFits(source: AppSpec, goal: string, selected: seq<Selection>, tokens: nat -> string)
    requires SettledSource(source) && WellFormed(selected) && Fresh(tokens, source, selected)
    requires ApprovedCriteria(source, selected, tokens).Some? && |ApprovedCriteria(source, selected, tokens).value| <= MAX_LIST
    ensures SpecOk(Approved(source, goal, selected, ApprovedCriteria(source, selected, tokens).value))
  {
    var criteria := ApprovedCriteria(source, selected, tokens).value;
    EntriesAreOk(selected, FeatureEntry);
    EntriesAreOk(selected, DataEntry);
    EntriesAreOk(selected, InterfaceEntry);
    EntriesAreOk(selected, ConstraintEntry);
    forall i | 0 <= i < |criteria|
      ensures CriterionOk(criteria[i])
    {
      ApprovedCriterionOk(source, selected, tokens, criteria[i]);
    }
  }

  // More criteria than the document has room for are refused.
  lemma {:induction false} TooManyAreRefused(spec: AppSpec, digest: string -> string)
    requires |spec.acceptanceCriteria| > MAX_LIST
    ensures Parse(Dump(spec), digest).None?
  {
    var gs := Groups(Dump(spec));
    if CoerceGroups(gs, digest).Some? {
      ListDrawnAt(gs, digest, CoerceGroups(gs, digest).value, 4);
    }
  }

  /**
   * The document checks leave a successful approval unchanged exactly when the selected ids differ, no
   * entry has taken the id of a criterion that is kept, and kept and new criteria are at most 50.
   */
  lemma {:induction false} ApprovalComesThroughIff(
      source: AppSpec, goal: string, selected: seq<Selection>, tokens: nat -> string, digest: string -> string)
    requires SettledSource(source) && WellFormed(selected) && ChecklistFits(source, selected) && Fresh(tokens, source, selected)
    requires ApprovedCriteria(source, selected, tokens).Some?
    ensures var criteria := ApprovedCriteria(source, selected, tokens).value;
            var spec := Approved(source, goal, selected, criteria);
            Parse(Dump(spec), digest) == Some(spec) <==>
            Distinct(SelectedIds(selected)) && Apart(selected, KeptBy(source, selected)) && |criteria| <= MAX_LIST
  {
    var entries, criteria := OfKind(selected, FeatureEntry), ApprovedCriteria(source, selected, tokens).value;
    var spec := Approved(source, goal, selected, criteria);
    if |criteria| > MAX_LIST {
      TooManyAreRefused(spec, digest);
    } else {
      ApprovedFits(source, goal, selected, tokens);
      AcceptanceCovers(source, Entries(entries), entries, tokens);
      UnchangedIffDistinct(spec, digest);
      ApprovedIdsDistinct(source, goal, selected, tokens);
    }
  }

  lemma {:induction false} UnchangedIffDistinct(spec: AppSpec, digest: string -> string)
    requires SpecOk(spec) && spec.features != [] && spec.openQuestions == []
    requires forall c :: c in spec.acceptanceCriteria ==> NamesFeatures(c, spec.features)
    requires forall f :: f in spec.features ==> CoveredBy(spec.acceptanceCriteria, f.id)
    ensures Parse(Dump(spec), digest) == Some(spec) <==> Distinct(AllIds(spec))
  {
    TiedToNamed(spec.acceptanceCriteria, spec.features);
    assert spec.features[0] in spec.features && CoveredBy(spec.acceptanceCriteria, spec.features[0].id);
    UnchangedIffSettled(spec, digest);
  }

  // ---- the two failing inputs

  // The approval of one kept feature and one new one.
  function OneKeptOneNew(kept: Item, id: string, text: string, done: string): seq<Selection> {
    [Selection(kept.id, kept.text, FeatureEntry, None), Selection(id, text, FeatureEntry, Some(done))]
  }

  lemma {:induction false} OneKeptOneNewEntries(kept: Item, id: string, text: string, done: string)
    ensures OfKind(OneKeptOneNew(kept, id, text, done), FeatureEntry) == OneKeptOneNew(kept, id, text, done)
    ensures OneKeptOneNew(kept, id, text, done)[0].id == kept.id && OneKeptOneNew(kept, id, text, done)[1].id == id
  {
    var selected := OneKeptOneNew(kept, id, text, done);
    assert selected[..1] == [selected[0]] && selected[..1][..0] == [];
    assert OfKind([], FeatureEntry) == [];
  }

  lemma {:induction false} NothingReplaced(selected: seq<Selection>, id: string)
    requires forall s :: s in selected && s.id == id ==> s.acceptance == None
    ensures Replacement(selected, id).None?
  {
  }

  lemma {:induction false} OneKeptKeeps(source: AppSpec, kept: Item, id: string, text: string, done: string, c: Criterion)
    requires kept in source.features && id != kept.id && c.sourceIds == [kept.id]
    ensures var selected := OneKeptOneNew(kept, id, text, done);
            KeepsCriterion(source, Entries(selected), selected, c)
  {
    var selected := OneKeptOneNew(kept, id, text, done);
    NothingReplaced(selected, kept.id);
    assert Entries(selected)[0] == kept;
    assert Unchanged(source, Entries(selected), selected, kept.id);
  }

  lemma {:induction false} OneKeptIsKept(source: AppSpec, kept: Item, id: string, text: string, done: string, c: Criterion)
    requires kept in source.features && id != kept.id && c.sourceIds == [kept.id] && c in source.acceptanceCriteria
    ensures c in KeptBy(source, OneKeptOneNew(kept, id, text, done))
  {
    OneKeptOneNewEntries(kept, id, text, done);
    OneKeptKeeps(source, kept, id, text, done, c);
  }

  lemma {:induction false} NewIsReplaced(kept: Item, id: string, text: string, done: string)
    requires done != ""
    ensures Replacement(OneKeptOneNew(kept, id, text, done), id) == Some(done)
  {
  }

  // Its criteria exist when one rests on the kept feature alone.
  lemma {:induction false} OneKeptOneNewSucceeds(
      source: AppSpec, kept: Item, id: string, text: string, done: string, c: Criterion, tokens: nat -> string)
    requires kept in source.features && id != kept.id && done != ""
    requires c in source.acceptanceCriteria && c.sourceIds == [kept.id]
    ensures ApprovedCriteria(source, OneKeptOneNew(kept, id, text, done), tokens).Some?
  {
    var selected := OneKeptOneNew(kept, id, text, done);
    var kc := KeptBy(source, selected);
    OneKeptOneNewEntries(kept, id, text, done);
    OneKeptIsKept(source, kept, id, text, done, c);
    NewIsReplaced(kept, id, text, done);
    forall f | f in Entries(selected)
      ensures CoveredBy(kc, f.id) || Replacement(selected, f.id).Some?
    {
      if f.id != id {
        assert f.id in c.sourceIds;
      }
    }
    NewCriteriaExist(kc, Entries(selected), selected, tokens);
  }

  lemma {:induction false} OneKeptOneNewFits(source: AppSpec, kept: Item, id: string, text: string, done: string)
    requires ItemOk(kept) && ValidId(id) && id != kept.id && ValidText(text) && ValidText(done)
    ensures var selected := OneKeptOneNew(kept, id, text, done);
            WellFormed(selected) && ChecklistFits(source, selected) && Distinct(SelectedIds(selected))
  {
    OneKeptOneNewEntries(kept, id, text, done);
  }

  lemma {:induction false} SharedIsNotApart(selected: seq<Selection>, kept: seq<Criterion>, c: Criterion, k: nat)
    requires c in kept && k < |selected| && selected[k].id == c.id
    ensures !Apart(selected, kept)
  {
    var i :| 0 <= i < |kept| && kept[i] == c;
    assert CriterionIds(kept)[i] == SelectedIds(selected)[k];
    assert SelectedIds(selected)[k] in SelectedIds(selected) && CriterionIds(kept)[i] in CriterionIds(kept);
  }

  /**
   * The first failing input: a new feature takes the id of a criterion that the approval keeps.  The
   * approval succeeds with distinct selected ids, and the document checks do not leave it as it is.
   */
  lemma {:induction false} SharedIdIsChanged(
      source: AppSpec, goal: string, kept: Item, criterion: Criterion, text: string, done: string,
      tokens: nat -> string, digest: string -> string)
    requires SettledSource(source) && kept in source.features && ItemOk(kept) && ValidText(text) && ValidText(done)
    requires criterion in source.acceptanceCriteria && criterion.sourceIds == [kept.id] && ValidId(criterion.id)
    requires criterion.id != kept.id && Fresh(tokens, source, OneKeptOneNew(kept, criterion.id, text, done))
    ensures var selected := OneKeptOneNew(kept, criterion.id, text, done);
            && WellFormed(selected) && ChecklistFits(source, selected) && Distinct(SelectedIds(selected))
            && ApprovedCriteria(source, selected, tokens).Some?
            && var spec := Approved(source, goal, selected, ApprovedCriteria(source, selected, tokens).value);
               Parse(Dump(spec), digest) != Some(spec)
  {
    var selected := OneKeptOneNew(kept, criterion.id, text, done);
    OneKeptOneNewFits(source, kept, criterion.id, text, done);
    OneKeptOneNewSucceeds(source, kept, criterion.id, text, done, criterion, tokens);
    OneKeptIsKept(source, kept, criterion.id, text, done, criterion);
    SharedIsNotApart(selected, KeptBy(source, selected), criterion, 1);
    ApprovalComesThroughIff(source, goal, selected, tokens, digest);
  }

  lemma {:induction false} AllKept(source: AppSpec, features: seq<Item>, selected: seq<Selection>, cs: seq<Criterion>)
    requires forall c :: c in cs ==> KeepsCriterion(source, features, selected, c)
    ensures KeptCriteria(source, features, selected, cs) == cs
    decreases |cs|
  {
    if cs != [] {
      var n := |cs| - 1;
      var front, last := cs[..n], cs[n];
      assert last in cs && cs == front + [last];
      forall c | c in front
        ensures KeepsCriterion(source, features, selected, c)
      {
        assert c in cs;
      }
      AllKept(source, features, selected, front);
    }
  }

  lemma {:induction false} EverythingIsKept(
      source: AppSpec, kept: Item, id: string, text: string, done: string, tokens: nat -> string)
    requires kept in source.features && id != kept.id && done != ""
    requires source.acceptanceCriteria != [] && forall c :: c in source.acceptanceCriteria ==> c.sourceIds == [kept.id]
    ensures var selected := OneKeptOneNew(kept, id, text, done);
            && KeptBy(source, selected) == source.acceptanceCriteria
            && ApprovedCriteria(source, selected, tokens) ==
               Some(source.acceptanceCriteria + [Criterion(tokens(1), done, [id])])
  {
    var selected, cs := OneKeptOneNew(kept, id, text, done), source.acceptanceCriteria;
    OneKeptOneNewEntries(kept, id, text, done);
    forall c | c in cs
      ensures KeepsCriterion(source, Entries(selected), selected, c)
    {
      OneKeptKeeps(source, kept, id, text, done, c);
    }
    AllKept(source, Entries(selected), selected, cs);
    OneIsAdded(cs, kept, id, text, done, tokens);
  }

  lemma {:induction false} OneIsAdded(cs: seq<Criterion>, kept: Item, id: string, text: string, done: string, tokens: nat -> string)
    requires cs != [] && id != kept.id && done != "" && forall c :: c in cs ==> c.sourceIds == [kept.id]
    ensures var selected := OneKeptOneNew(kept, id, text, done);
            NewCriteria(cs, Entries(selected), selected, tokens) == Some([Criterion(tokens(1), done, [id])])
  {
    var selected := OneKeptOneNew(kept, id, text, done);
    var features := Entries(selected);
    NewIsReplaced(kept, id, text, done);
    assert features == [kept, Item(id, text)] && features[..1] == [kept] && [kept][..0] == [];
    assert cs[0] in cs && kept.id in cs[0].sourceIds && CoveredBy(cs, kept.id);
    assert !CoveredBy(cs, id);
    assert NewCriteria(cs, [], selected, tokens) == Some([]);
    assert NewCriteria(cs, [kept], selected, tokens) == Some([]);
    assert features[1].id == id && NewCriteria(cs, features[..1], selected, tokens) == Some([]);
    assert [] + [Criterion(tokens(1), done, [id])] == [Criterion(tokens(1), done, [id])];
  }

  lemma {:induction false} SettledIdsApart(source: AppSpec, kept: Item, id: string, text: string, done: string)
    requires SettledSource(source) && source.features == [kept] && id !in AllIds(source)
    ensures Apart(OneKeptOneNew(kept, id, text, done), source.acceptanceCriteria)
  {
    var selected, ids := OneKeptOneNew(kept, id, text, done), CriterionIds(source.acceptanceCriteria);
    SourceCriteriaDistinct(source);
    var front := ItemIds(source.features) + ItemIds(source.dataRequirements) + ItemIds(source.interfaceRequirements) + ItemIds(source.constraints);
    DistinctParts(front, ids);
    assert front[0] == kept.id;
    forall x | x in SelectedIds(selected)
      ensures x !in ids
    {
      assert x == kept.id || x == id;
    }
  }

  /**
   * The second failing input: all 50 criteria of the one feature are kept and a new feature brings its
   * own.  The approval succeeds, and the document checks refuse it for its 51 criteria.
   */
  lemma {:induction false} FiftyKeptAndOneNewAreRefused(
      source: AppSpec, goal: string, kept: Item, id: string, text: string, done: string,
      tokens: nat -> string, digest: string -> string)
    requires SettledSource(source) && source.features == [kept] && |source.acceptanceCriteria| == MAX_LIST
    requires forall c :: c in source.acceptanceCriteria ==> c.sourceIds == [kept.id]
    requires ValidId(id) && id !in AllIds(source) && ValidText(text) && ValidText(done)
    ensures var selected := OneKeptOneNew(kept, id, text, done);
            && WellFormed(selected) && ChecklistFits(source, selected)
            && Distinct(SelectedIds(selected)) && Apart(selected, KeptBy(source, selected))
            && ApprovedCriteria(source, selected, tokens).Some?
            && |ApprovedCriteria(source, selected, tokens).value| == MAX_LIST + 1
            && Parse(Dump(Approved(source, goal, selected, ApprovedCriteria(source, selected, tokens).value)), digest).None?
  {
    var selected := OneKeptOneNew(kept, id, text, done);
    var ids := AllIds(source);
    assert ItemOk(source.features[0]) && ids[0] == kept.id;
    OneKeptOneNewFits(source, kept, id, text, done);
    EverythingIsKept(source, kept, id, text, done, tokens);
    SettledIdsApart(source, kept, id, text, done);
    TooManyAreRefused(Approved(source, goal, selected, ApprovedCriteria(source, selected, tokens).value), digest);
  }
}
