/**
 * Repair plans, generation/delivery.py: the targets of a frozen repair request and the plan the
 * platform proposes for them on top of the work that is already completed.
 */
module RepairPlans {
  import opened Results
  import opened Graphs
  import opened AppSpecs
  import opened SystemDesigns
  import opened Texts
  import opened DeliveryPlans
  import opened DeliverySuggestions

  // ---------------------------------------------------------------- the targets of a request

  // `\s*(?:[-*]\s*)?\d{1,2}[.、)]\s*(.+)` against one line; `digit` is the regex's digit class.
  function AfterMarker(line: string): string {
    var s := StripLeft(line);
    if s != "" && (s[0] == '-' || s[0] == '*') then StripLeft(s[1..]) else s
  }

  predicate IsDelimiter(c: char) {
    c == '.' || c == '\U{3001}' || c == ')'
  }

  function AfterNumber(s: string, digit: char -> bool): Option<string> {
    if |s| >= 2 && digit(s[0]) && IsDelimiter(s[1]) then Some(s[2..])
    else if |s| >= 3 && digit(s[0]) && digit(s[1]) && IsDelimiter(s[2]) then Some(s[3..])
    else None
  }

  // The captured text of a numbered line; an all-blank rest gives back its last character.
  function Numbered(line: string, digit: char -> bool): Option<string> {
    var rest := AfterNumber(AfterMarker(line), digit);
    if rest.None? || rest.value == "" then None
    else if StripLeft(rest.value) != "" then Some(StripLeft(rest.value))
    else Some([rest.value[|rest.value| - 1]])
  }

  // One more line: a numbered one opens a defect, any other with text continues the last.
  function AddLine(groups: seq<seq<string>>, line: string, numbered: Option<string>): seq<seq<string>> {
    if numbered.Some? then groups + [[numbered.value]]
    else if groups != [] && Strip(line) != "" then
      groups[..|groups| - 1] + [groups[|groups| - 1] + [Strip(line)]]
    else groups
  }

  // The pieces of each numbered defect: its own text and the lines that continue it.
  function Defects(lines: seq<string>, digit: char -> bool): seq<seq<string>> {
    if lines == [] then []
    else
      var n := |lines| - 1;
      AddLine(Defects(lines[..n], digit), lines[n], Numbered(lines[n], digit))
  }

  function Merged(groups: seq<seq<string>>): (texts: seq<string>)
    ensures |texts| == |groups| && forall i :: 0 <= i < |groups| ==> texts[i] == Normalize(Join(groups[i]))
  {
    seq(|groups|, i requires 0 <= i < |groups| => Normalize(Join(groups[i])))
  }

  function Targets(content: string, digit: char -> bool): seq<string> {
    var texts := Merged(Defects(SplitLines(Strip(content)), digit));
    if 1 <= |texts| <= MAX_REPAIR_ITEMS then texts else [Normalize(content)]
  }

  // The finished targets and the pieces of the open one.
  ghost predicate Collected(targets: seq<string>, current: seq<string>, groups: seq<seq<string>>) {
    if current == [] then targets == [] && groups == []
    else groups != [] && groups[|groups| - 1] == current && targets == Merged(groups[..|groups| - 1])
  }

  lemma {:induction false} CollectedNext(targets: seq<string>, current: seq<string>, groups: seq<seq<string>>, text: string)
    requires Collected(targets, current, groups)
    ensures Collected(if current == [] then targets else targets + [Normalize(Join(current))], [text], groups + [[text]])
    ensures current != [] ==> targets + [Normalize(Join(current))] == Merged(groups)
  {
    assert (groups + [[text]])[..|groups|] == groups;
    if current != [] {
      assert groups == groups[..|groups| - 1] + [current];
    }
  }

  lemma {:induction false} CollectedMore(targets: seq<string>, current: seq<string>, groups: seq<seq<string>>, line: string)
    requires Collected(targets, current, groups)
    ensures Collected(targets, if current != [] && Strip(line) != "" then current + [Strip(line)] else current,
                      AddLine(groups, line, None))
  {
    if current != [] && Strip(line) != "" {
      var n := |groups| - 1;
      assert AddLine(groups, line, None)[..n] == groups[..n];
    }
  }

  lemma {:induction false} DefectsSnoc(lines: seq<string>, i: nat, digit: char -> bool)
    requires i < |lines|
    ensures Defects(lines[..i + 1], digit) == AddLine(Defects(lines[..i], digit), lines[i], Numbered(lines[i], digit))
  {
    assert lines[..i + 1][..i] == lines[..i];
  }

  method RepairTargets(content: string, digit: char -> bool) returns (targets: seq<string>)
    ensures targets == Targets(content, digit)
  {
    var lines := SplitLines(Strip(content));
    targets := [];
    var current: seq<string> := [];
    for i := 0 to |lines|
      invariant Collected(targets, current, Defects(lines[..i], digit))
    {
      ghost var before := Defects(lines[..i], digit);
      DefectsSnoc(lines, i, digit);
      var numbered := Numbered(lines[i], digit);
      if numbered.Some? {
        CollectedNext(targets, current, before, numbered.value);
        if current != [] {
          targets := targets + [Normalize(Join(current))];
        }
        current := [numbered.value];
      } else {
        CollectedMore(targets, current, before, lines[i]);
        if current != [] && Strip(lines[i]) != "" {
          current := current + [Strip(lines[i])];
        }
      }
    }
    assert lines[..|lines|] == lines;
    if current != [] {
      CollectedNext(targets, current, Defects(lines, digit), "");
      targets := targets + [Normalize(Join(current))];
    }
    if !(1 <= |targets| <= MAX_REPAIR_ITEMS) {
      targets := [Normalize(content)];
    }
  }

  // The words of the request from its first numbered line on, without the numbering itself.
  function DefectWords(lines: seq<string>, digit: char -> bool): seq<string> {
    if lines == [] then []
    else
      var n := |lines| - 1;
      var text := Numbered(lines[n], digit);
      DefectWords(lines[..n], digit) +
      if text.Some? then Words(text.value)
      else if Defects(lines[..n], digit) != [] then Words(lines[n])
      else []
  }

  function WordsOfGroups(groups: seq<seq<string>>): seq<string> {
    if groups == [] then [] else WordsOfGroups(groups[..|groups| - 1]) + WordsOf(groups[|groups| - 1])
  }

  lemma {:induction false} DefectsKeepWords(lines: seq<string>, digit: char -> bool)
    ensures WordsOfGroups(Defects(lines, digit)) == DefectWords(lines, digit)
    decreases |lines|
  {
    if lines != [] {
      var n := |lines| - 1;
      DefectsKeepWords(lines[..n], digit);
      AddLineKeepsWords(Defects(lines[..n], digit), lines[n], Numbered(lines[n], digit));
    }
  }

  lemma {:induction false} AddLineKeepsWords(groups: seq<seq<string>>, line: string, numbered: Option<string>)
    ensures WordsOfGroups(AddLine(groups, line, numbered)) ==
            WordsOfGroups(groups) +
            if numbered.Some? then Words(numbered.value) else if groups != [] then Words(line) else []
  {
    if numbered.Some? {
      WordsOfGroupsSnoc(groups, [numbered.value]);
      WordsOfSnoc([], numbered.value);
      assert [] + [numbered.value] == [numbered.value];
    } else if groups != [] {
      StripKeepsWords(line);
      if Strip(line) != "" {
        var m := |groups| - 1;
        WordsOfGroupsSnoc(groups[..m], groups[m] + [Strip(line)]);
        WordsOfSnoc(groups[m], Strip(line));
      }
    }
  }

  lemma {:induction false} WordsOfGroupsSnoc(groups: seq<seq<string>>, group: seq<string>)
    ensures WordsOfGroups(groups + [group]) == WordsOfGroups(groups) + WordsOf(group)
  {
    assert (groups + [group])[..|groups|] == groups;
  }

  lemma {:induction false} MergedKeepsWords(groups: seq<seq<string>>)
    ensures WordsOf(Merged(groups)) == WordsOfGroups(groups)
    decreases |groups|
  {
    if groups != [] {
      var n := |groups| - 1;
      MergedKeepsWords(groups[..n]);
      assert Merged(groups)[..n] == Merged(groups[..n]);
      WordsOfJoined(groups[n]);
      NormalizeKeepsWords(Join(groups[n]));
    }
  }

  /**
   * Between 1 and 20 targets, each normalised.  Together they hold exactly the words of the
   * numbered defects, in order, or every word of the request when it is not a short numbered list;
   * the lines they are taken from hold all words of the request.
   */
  lemma {:induction false} TargetsKeepDefectsIntact(content: string, digit: char -> bool)
    ensures var targets, lines := Targets(content, digit), SplitLines(Strip(content));
            && 1 <= |targets| <= MAX_REPAIR_ITEMS
            && (forall i :: 0 <= i < |targets| ==> Normalize(targets[i]) == targets[i])
            && WordsOf(lines) == Words(content)
            && WordsOf(targets) ==
               if 1 <= |Defects(lines, digit)| <= MAX_REPAIR_ITEMS then DefectWords(lines, digit) else Words(content)
  {
    var targets, lines := Targets(content, digit), SplitLines(Strip(content));
    var groups := Defects(lines, digit);
    StripKeepsWords(content);
    SplitLinesKeepsWords(Strip(content));
    TargetWords(content, digit);
    forall i | 0 <= i < |targets|
      ensures Normalize(targets[i]) == targets[i]
    {
      if 1 <= |groups| <= MAX_REPAIR_ITEMS {
        NormalizeIdempotent(Join(groups[i]));
      } else {
        NormalizeIdempotent(content);
      }
    }
  }

  lemma {:induction false} TargetWords(content: string, digit: char -> bool)
    ensures var lines := SplitLines(Strip(content));
            WordsOf(Targets(content, digit)) ==
            if 1 <= |Defects(lines, digit)| <= MAX_REPAIR_ITEMS then DefectWords(lines, digit) else Words(content)
  {
    var groups := Defects(SplitLines(Strip(content)), digit);
    if 1 <= |groups| <= MAX_REPAIR_ITEMS {
      DefectsKeepWords(SplitLines(Strip(content)), digit);
      MergedKeepsWords(groups);
    } else {
      WordsOfSnoc([], Normalize(content));
      assert [] + [Normalize(content)] == [Normalize(content)];
      NormalizeKeepsWords(content);
    }
  }

  // ---------------------------------------------------------------- the proposed repair plan

  const MAX_TEXT: nat := 16000

  // What the schema accepts as a title or an acceptance text.
  predicate UsableText(text: string) {
    1 <= |text| <= MAX_TEXT
  }

  function RepairCandidate(index: nat, k: nat): string {
    "repair_" + Decimal(index) + if k == 0 then "" else "_" + Decimal(k + 1)
  }

  lemma {:induction false} RepairCandidatesDiffer(index: nat)
    ensures Injective((k: nat) => RepairCandidate(index, k))
  {
    var stem := "repair_" + Decimal(index);
    forall i: nat, j: nat | RepairCandidate(index, i) == RepairCandidate(index, j)
      ensures i == j
    {
      assert RepairCandidate(index, i)[..|stem|] == stem;
      if i > 0 && j > 0 {
        assert RepairCandidate(index, i)[|stem| + 1..] == Decimal(i + 1);
        assert RepairCandidate(index, j)[|stem| + 1..] == Decimal(j + 1);
        DecimalInjective(i + 1, j + 1);
      }
    }
  }

  function RepairItem(id: string, target: string): PlannedItem {
    PlannedItem(id, [], [], target, Repair, [], "", [target], ["least change", "full check"])
  }

  ghost predicate RepairAt(item: PlannedItem, target: string, used: set<string>) {
    item == RepairItem(item.id, target) && item.id !in used
  }

  // One item per target, in order, under distinct ids that no completed item has.
  ghost predicate RepairsFor(targets: seq<string>, used: set<string>, items: seq<PlannedItem>) {
    && |items| == |targets|
    && (forall i :: 0 <= i < |items| ==> RepairAt(items[i], targets[i], used))
    && (forall i, j :: 0 <= i < j < |items| ==> items[i].id != items[j].id)
  }

  datatype RepairError = UnusableTarget(target: string) | Rejected(error: PlanError)

  // Completed work that can stand alone: its links and dependencies stay inside it.
  ghost predicate StandsAlone(spec: AppSpec, completed: seq<WorkItem>) {
    && FeatureIds(spec) != {}
    && Distinct(Ids(completed)) && AllLinked(spec, completed, true)
    && !Cyclic(PlanGraph(completed))
    && forall i :: 0 <= i < |completed| ==> Completed(completed[i])
  }

  /**
   * On completed work that stands alone the proposal passes the repair validator exactly when
   * every target is usable as a text and the plan stays within 20 repair items and 100 items.
   * In general it succeeds exactly when its items are valid on top of the completed ones.
   */
  method SuggestedRepairPlan(spec: AppSpec, content: string, digit: char -> bool, completed: seq<WorkItem>)
    returns (r: Result<seq<PlannedItem>, RepairError>)
    ensures r.Ok? ==>
              && RepairsFor(Targets(content, digit), Elements(Ids(completed)), r.value)
              && ValidPlan(spec, completed + AllPending(r.value), None, Some(Targets(content, digit)))
    ensures r.Err? && r.error.UnusableTarget? <==> exists t :: t in Targets(content, digit) && !UsableText(t)
    ensures StandsAlone(spec, completed) ==>
              (r.Ok? <==>
                && (forall t :: t in Targets(content, digit) ==> UsableText(t))
                && |completed| + |Targets(content, digit)| <= MAX_ITEMS
                && RepairCount(completed) + |Targets(content, digit)| <= MAX_REPAIR_ITEMS)
  {
    var targets := RepairTargets(content, digit);
    TargetsKeepDefectsIntact(content, digit);
    var drafts := DraftRepairs(targets, Elements(Ids(completed)));
    if drafts.Err? {
      return Err(UnusableTarget(drafts.error));
    }
    var items := drafts.value;
    RepairsValid(spec, completed, items, targets);
    var checked := ValidateDeliveryPlan(spec, completed + AllPending(items), None, Some(targets));
    return if checked.Ok? then Ok(items) else Err(Rejected(checked.error));
  }

  // One item per target; the first target that the schema refuses ends the proposal.
  method DraftRepairs(targets: seq<string>, taken: set<string>) returns (r: Result<seq<PlannedItem>, string>)
    ensures r.Ok? <==> forall t :: t in targets ==> UsableText(t)
    ensures r.Ok? ==> RepairsFor(targets, taken, r.value)
    ensures r.Err? ==> r.error in targets && !UsableText(r.error)
  {
    var used := taken;
    var items: seq<PlannedItem> := [];
    for i := 0 to |targets|
      invariant RepairsFor(targets[..i], taken, items)
      invariant taken <= used && forall k :: 0 <= k < i ==> items[k].id in used
      invariant forall t :: t in targets[..i] ==> UsableText(t)
    {
      RepairCandidatesDiffer(i + 1);
      var id, _ := FreshId((k: nat) => RepairCandidate(i + 1, k), used);
      used := used + {id};
      if !UsableText(targets[i]) {
        return Err(targets[i]);
      }
      RepairsSnoc(targets[..i], taken, items, id, targets[i]);
      items := items + [RepairItem(id, targets[i])];
      assert targets[..i + 1] == targets[..i] + [targets[i]];
    }
    assert targets[..|targets|] == targets;
    return Ok(items);
  }

  lemma {:induction false} RepairsSnoc(targets: seq<string>, used: set<string>, items: seq<PlannedItem>, id: string, target: string)
    requires RepairsFor(targets, used, items) && id !in used && forall i :: 0 <= i < |items| ==> items[i].id != id
    ensures RepairsFor(targets + [target], used, items + [RepairItem(id, target)])
  {
    assert RepairAt(RepairItem(id, target), target, used);
  }

  lemma {:induction false} RepairIds(completed: seq<WorkItem>, items: seq<PlannedItem>, targets: seq<string>)
    requires RepairsFor(targets, Elements(Ids(completed)), items) && Distinct(Ids(completed))
    ensures var work := completed + AllPending(items);
            && Distinct(Ids(work)) && Elements(Ids(work)) == Elements(Ids(completed)) + Elements(Ids(AllPending(items)))
            && Elements(Ids(completed)) !! Elements(Ids(AllPending(items)))
  {
    var work := completed + AllPending(items);
    assert Ids(work) == Ids(completed) + Ids(AllPending(items));
    forall i | 0 <= i < |items|
      ensures Ids(AllPending(items))[i] !in Ids(completed)
    {
      assert RepairAt(items[i], targets[i], Elements(Ids(completed)));
    }
  }

  lemma {:induction false} RepairLinks(spec: AppSpec, completed: seq<WorkItem>, items: seq<PlannedItem>, targets: seq<string>)
    requires RepairsFor(targets, Elements(Ids(completed)), items) && StandsAlone(spec, completed)
    ensures AllLinked(spec, completed + AllPending(items), true)
  {
    var work := completed + AllPending(items);
    RepairIds(completed, items, targets);
    forall i | 0 <= i < |work|
      ensures Linked(work[i].plan, FeatureIds(spec), Elements(Ids(work)), true)
    {
      if i < |completed| {
        assert Linked(completed[i].plan, FeatureIds(spec), Elements(Ids(completed)), true);
      } else {
        assert RepairAt(items[i - |completed|], targets[i - |completed|], Elements(Ids(completed)));
      }
    }
  }

  lemma {:induction false} NoEdgeAt(work: seq<WorkItem>, i: nat)
    requires Distinct(Ids(work)) && i < |work| && work[i].plan.dependsOn == []
    ensures work[i].plan.id in PlanGraph(work) && PlanGraph(work)[work[i].plan.id] == {}
  {
    PlanGraphAt(work, i);
  }

  lemma {:induction false} RepairShape(items: seq<PlannedItem>, targets: seq<string>, used: set<string>, i: nat)
    requires RepairsFor(targets, used, items) && i < |items|
    ensures items[i].dependsOn == [] && items[i].kind.Repair? && items[i].acceptance == [targets[i]]
  {
    assert RepairAt(items[i], targets[i], used);
  }

  lemma {:induction false} CompletedKeepsEdge(completed: seq<WorkItem>, work: seq<WorkItem>, i: nat)
    requires Distinct(Ids(completed)) && Distinct(Ids(work)) && completed <= work && i < |completed|
    ensures completed[i].plan.id in PlanGraph(completed) && completed[i].plan.id in PlanGraph(work)
    ensures PlanGraph(work)[completed[i].plan.id] == PlanGraph(completed)[completed[i].plan.id]
  {
    PlanGraphAt(work, i);
    PlanGraphAt(completed, i);
  }

  lemma {:induction false} RepairsAcyclic(completed: seq<WorkItem>, items: seq<PlannedItem>, targets: seq<string>)
    requires RepairsFor(targets, Elements(Ids(completed)), items)
    requires Distinct(Ids(completed)) && !Cyclic(PlanGraph(completed))
    ensures !Cyclic(PlanGraph(completed + AllPending(items)))
  {
    var pending := AllPending(items);
    RepairIds(completed, items, targets);
    var g, h, roots := PlanGraph(completed + pending), PlanGraph(completed), Elements(Ids(pending));
    forall k | k in roots
      ensures k in g && g[k] == {}
    {
      RepairIsRoot(completed, items, targets, k);
    }
    forall k | k in h
      ensures k in g && g[k] == h[k]
    {
      var i :| 0 <= i < |completed| && Ids(completed)[i] == k;
      CompletedKeepsEdge(completed, completed + pending, i);
    }
    CycleAvoidsRoots(g, h, roots);
  }

  lemma {:induction false} RepairIsRoot(completed: seq<WorkItem>, items: seq<PlannedItem>, targets: seq<string>, id: string)
    requires RepairsFor(targets, Elements(Ids(completed)), items) && id in Ids(AllPending(items))
    requires Distinct(Ids(completed + AllPending(items)))
    ensures id in PlanGraph(completed + AllPending(items)) && PlanGraph(completed + AllPending(items))[id] == {}
  {
    var pending := AllPending(items);
    var i :| 0 <= i < |items| && Ids(pending)[i] == id;
    RepairShape(items, targets, Elements(Ids(completed)), i);
    assert (completed + pending)[|completed| + i] == pending[i];
    NoEdgeAt(completed + pending, |completed| + i);
  }

  lemma {:induction false} RepairCountAppend(a: seq<WorkItem>, b: seq<WorkItem>)
    ensures RepairCount(a + b) == RepairCount(a) + RepairCount(b)
    decreases |b|
  {
    if b == [] {
      assert a + b == a;
    } else {
      var n := |b| - 1;
      assert (a + b)[..|a + b| - 1] == a + b[..n];
      RepairCountAppend(a, b[..n]);
    }
  }

  lemma {:induction false} AllRepairs(work: seq<WorkItem>)
    requires forall i :: 0 <= i < |work| ==> work[i].plan.kind.Repair?
    ensures RepairCount(work) == |work|
    decreases |work|
  {
    if work != [] {
      AllRepairs(work[..|work| - 1]);
    }
  }

  lemma {:induction false} RepairsKeepTargets(completed: seq<WorkItem>, items: seq<PlannedItem>, targets: seq<string>, t: string)
    requires RepairsFor(targets, Elements(Ids(completed)), items)
    requires t in targets && Normalize(t) == t
    ensures TargetKept(completed + AllPending(items), t)
  {
    var i :| 0 <= i < |targets| && targets[i] == t;
    var work := completed + AllPending(items);
    RepairShape(items, targets, Elements(Ids(completed)), i);
    assert work[|completed| + i].plan == items[i];
    assert Join([t]) == t;
    assert OccursAt(t, t, 0);
    assert Occurs(t, Observed(work[|completed| + i].plan));
  }

  lemma {:induction false} RepairsInScope(completed: seq<WorkItem>, items: seq<PlannedItem>, targets: seq<string>)
    requires RepairsFor(targets, Elements(Ids(completed)), items)
    requires 1 <= |targets| && forall i :: 0 <= i < |targets| ==> Normalize(targets[i]) == targets[i]
    requires forall i :: 0 <= i < |completed| ==> Completed(completed[i])
    ensures ValidRepair(completed + AllPending(items), targets) <==> RepairCount(completed) + |targets| <= MAX_REPAIR_ITEMS
  {
    var pending := AllPending(items);
    RepairCountAppend(completed, pending);
    forall i | 0 <= i < |pending|
      ensures pending[i].plan.kind.Repair?
    {
      RepairShape(items, targets, Elements(Ids(completed)), i);
    }
    AllRepairs(pending);
    forall t | t in targets
      ensures TargetKept(completed + pending, t)
    {
      RepairsKeepTargets(completed, items, targets, t);
    }
  }

  lemma {:induction false} RepairsValid(spec: AppSpec, completed: seq<WorkItem>, items: seq<PlannedItem>, targets: seq<string>)
    requires RepairsFor(targets, Elements(Ids(completed)), items)
    requires 1 <= |targets| && forall i :: 0 <= i < |targets| ==> Normalize(targets[i]) == targets[i]
    ensures StandsAlone(spec, completed) ==>
              (ValidPlan(spec, completed + AllPending(items), None, Some(targets)) <==>
                |completed| + |targets| <= MAX_ITEMS && RepairCount(completed) + |targets| <= MAX_REPAIR_ITEMS)
  {
    if StandsAlone(spec, completed) {
      RepairIds(completed, items, targets);
      RepairLinks(spec, completed, items, targets);
      RepairsAcyclic(completed, items, targets);
      RepairsInScope(completed, items, targets);
    }
  }
}
