/**
 * The projected history of agents/code_engineer.py: which recorded tool results the next model
 * turn still sees, and how they are replayed as assistant and tool messages.
 *
 * The window is scanned from the newest result to the oldest.  Scan says what one result does to
 * the lists and sets of that loop; `picked` holds the window positions of the retained results,
 * newest first, and `charges` what each of them was charged.
 */
module EngineerHistory {
  import opened Results
  import opened JsonText
  import opened ObservationText
  import Texts
  import ToolLoop

  const WINDOW: nat := 24
  const MAX_HISTORY_CHARS: nat := 100_000
  const MAX_NATIVE_READ_BATCHES: nat := 2
  const MAX_HISTORY_CHECK_OUTPUT_CHARS: nat := 1200
  const MAX_HISTORY_ITEMS: nat := 40
  const READ_TOOLS: set<string> := {"read_file", "list_files", "search_code"}
  const CHECK_TOOLS: set<string> := {"run_check", "complete_work_item"}
  const CUT_NOTICE: string := "\n[历史内容已截断；需要完整证据时请定向重新读取]"

  datatype Call = Call(id: string, name: string, arguments: Document)

  datatype Response = Response(content: Option<string>, reasoning: Option<string>, calls: seq<Call>)

  // A native response of the model and the turn it was recorded under.
  datatype Recorded = Recorded(turn: nat, response: Response)

  // The decision a result belongs to.
  datatype BatchId = TurnBatch(turn: nat) | CallBatch(id: string)

  // What visible_read_fragment lets the model see of a read.
  datatype ReadView = ReadView(summary: string, data: Document, cut: bool)

  datatype Context = Context(
    readsUnavailable: bool,
    evidenceHashes: map<Document, Document>,
    stalePaths: set<Document>,
    checkOutcomes: map<Document, string>,
    recorded: seq<Recorded>,
    responseSize: Response -> nat,
    format: Document -> string,
    readView: Observation -> ReadView)

  // ---------------------------------------------------------------- compacting values

  function CompactText(s: string): string {
    if |s| > MAX_EVIDENCE_CHARS then s[..MAX_EVIDENCE_CHARS] + CUT_NOTICE else s
  }

  function Compact(d: Document): Document
    decreases d
  {
    match d
    case Text(s) => Text(CompactText(s))
    case List(items) =>
      var n := if |items| < MAX_HISTORY_ITEMS then |items| else MAX_HISTORY_ITEMS;
      List(seq(n, i requires 0 <= i < n => Compact(items[i])))
    case Object(members) =>
      Object(seq(|members|, i requires 0 <= i < |members| => (members[i].0, Compact(members[i].1))))
    case _ => d
  }

  lemma {:induction false} CompactTextTwice(s: string)
    ensures CompactText(CompactText(s)) == CompactText(s)
  {
    if |s| > MAX_EVIDENCE_CHARS {
      assert CompactText(s)[..MAX_EVIDENCE_CHARS] == s[..MAX_EVIDENCE_CHARS];
    }
  }

  /** Compacting a compacted value changes nothing, so a replayed result never shrinks again. */
  lemma {:induction false} CompactTwice(d: Document)
    ensures Compact(Compact(d)) == Compact(d)
    decreases d
  {
    match d
    case Text(s) => CompactTextTwice(s);
    case List(items) =>
      var once := Compact(d);
      forall i | 0 <= i < |once.items|
        ensures Compact(once.items[i]) == once.items[i]
      {
        CompactTwice(items[i]);
      }
      assert Compact(once).items == once.items;
    case Object(members) =>
      var once := Compact(d);
      forall i | 0 <= i < |members|
        ensures Compact(once.members[i].1) == once.members[i].1
      {
        CompactTwice(members[i].1);
      }
      assert Compact(once).members == once.members;
    case _ =>
  }

  // ---------------------------------------------------------------- one result

  // Python's dict.get: a missing key reads like an explicit null.
  function Find(members: seq<(string, Document)>, key: string): Document {
    if members == [] then Nothing else if members[0].0 == key then members[0].1 else Find(members[1..], key)
  }

  function Get(d: Document, key: string): Document {
    if d.Object? then Find(d.members, key) else Nothing
  }

  // Assigning a key of a dict: in place if it is there, at the end otherwise.
  function Put(members: seq<(string, Document)>, key: string, v: Document): seq<(string, Document)> {
    if members == [] then [(key, v)]
    else if members[0].0 == key then [(key, v)] + members[1..]
    else [members[0]] + Put(members[1..], key, v)
  }

  function BatchOf(o: Observation): BatchId {
    if o.turn.Some? then TurnBatch(o.turn.value) else CallBatch(o.callId)
  }

  predicate IsRead(o: Observation) {
    o.name == "read_file" && o.ok
  }

  function Identity(o: Observation): seq<Document> {
    [Get(o.data, "path"), Get(o.data, "content_hash"), Get(o.data, "start_line"), Get(o.data, "end_line")]
  }

  // Results that are never replayed, whatever else the window holds.
  predicate Relevant(ctx: Context, o: Observation) {
    && o.name !in {"model_response", "update_work_item_focus"}
    && !(ctx.readsUnavailable && o.ok && o.name in READ_TOOLS)
    && !(o.name in CHECK_TOOLS && !o.ok
         && Get(o.data, "check_id") in ctx.checkOutcomes && ctx.checkOutcomes[Get(o.data, "check_id")] == "passed")
  }

  // The source has changed since the read.
  predicate Outdated(ctx: Context, o: Observation) {
    var path := Get(o.data, "path");
    path in ctx.stalePaths || (path in ctx.evidenceHashes && Get(o.data, "content_hash") != ctx.evidenceHashes[path])
  }

  // Only the latest result of a lane is replayed; the empty lane has no such limit.
  function Lane(ctx: Context, o: Observation): string {
    if o.name == "update_delivery_plan" then "plan"
    else if o.name in CHECK_TOOLS then "check:" + ctx.format(Get(o.data, "check_id"))
    else ""
  }

  function OmitMiddle(output: string): string
    requires |output| > MAX_HISTORY_CHECK_OUTPUT_CHARS
  {
    output[..300] + "\n[历史检查输出省略 " + Texts.Decimal(|output| - 1000) + " 字符；完整日志已记录]\n" + output[|output| - 700..]
  }

  function ShortenOutput(o: Observation, p: Observation): Observation {
    var output := Get(o.data, "output");
    if o.name in CHECK_TOOLS && output.Text? && |output.s| > MAX_HISTORY_CHECK_OUTPUT_CHARS && p.data.Object? then
      var members := Put(p.data.members, "output", Text(OmitMiddle(output.s)));
      p.(data := Object(Put(members, "output_total_chars", Number(Texts.Decimal(|output.s|)))), truncated := true)
    else p
  }

  // What is replayed of a result; which call it answers and how that ended stays as it was.
  function Project(ctx: Context, o: Observation): (p: Observation)
    ensures p.callId == o.callId && p.turn == o.turn && p.name == o.name && p.ok == o.ok
  {
    var compact := o.(
      errorCode := if o.errorCode.Some? then Some(CompactText(o.errorCode.value)) else None,
      summary := CompactText(o.summary), data := Compact(o.data), arguments := Compact(o.arguments));
    var shortened := ShortenOutput(o, compact);
    if IsRead(o) then
      var view := ctx.readView(o);
      shortened.(summary := view.summary, data := view.data, truncated := shortened.truncated || view.cut)
    else if o.name == "update_delivery_plan" then shortened.(arguments := o.arguments)
    else shortened
  }

  // ---------------------------------------------------------------- native responses

  predicate Names(r: Recorded, turn: Option<nat>, id: string) {
    turn == Some(r.turn) && exists k :: 0 <= k < |r.response.calls| && r.response.calls[k].id == id
  }

  // The response that holds the call: the last recorded one, as in a dictionary built in order.
  function FindResponse(recorded: seq<Recorded>, turn: Option<nat>, id: string): (r: Option<Recorded>)
    ensures r.Some? ==> r.value in recorded && Names(r.value, turn, id) && r.value.response.calls != []
    ensures r.None? ==> forall i :: 0 <= i < |recorded| ==> !Names(recorded[i], turn, id)
  {
    if recorded == [] then None
    else if Names(recorded[|recorded| - 1], turn, id) then Some(recorded[|recorded| - 1])
    else FindResponse(recorded[..|recorded| - 1], turn, id)
  }

  predicate DistinctTurns(recorded: seq<Recorded>) {
    forall i, j :: 0 <= i < j < |recorded| ==> recorded[i].turn != recorded[j].turn
  }

  // ---------------------------------------------------------------- scanning the window

  datatype Scan = Scan(
    picked: seq<nat>,
    charges: seq<nat>,
    seen: set<string>,
    ranges: set<seq<Document>>,
    readBatches: set<BatchId>,
    batches: set<BatchId>,
    counted: set<(nat, string)>,
    stopped: bool)

  function Sum(ns: seq<nat>): nat {
    if ns == [] then 0 else Sum(ns[..|ns| - 1]) + ns[|ns| - 1]
  }

  predicate ReadAdmitted(ctx: Context, s: Scan, o: Observation) {
    && !Outdated(ctx, o) && Identity(o) !in s.ranges
    && (BatchOf(o) in s.readBatches || |s.readBatches| < MAX_NATIVE_READ_BATCHES)
  }

  predicate LaneTaken(ctx: Context, s: Scan, o: Observation) {
    Lane(ctx, o) != "" && Lane(ctx, o) in s.seen
  }

  predicate Considered(ctx: Context, s: Scan, o: Observation) {
    !s.stopped && Relevant(ctx, o) && (IsRead(o) ==> ReadAdmitted(ctx, s, o)) && !LaneTaken(ctx, s, o)
  }

  function Note(ctx: Context, s: Scan, o: Observation): Scan {
    s.(ranges := if IsRead(o) then s.ranges + {Identity(o)} else s.ranges,
       readBatches := if IsRead(o) then s.readBatches + {BatchOf(o)} else s.readBatches,
       seen := if Lane(ctx, o) != "" then s.seen + {Lane(ctx, o)} else s.seen)
  }

  function ResponseKey(ctx: Context, o: Observation): Option<(nat, string)> {
    var r := FindResponse(ctx.recorded, o.turn, o.callId);
    if r.None? then None else Some((r.value.turn, r.value.response.calls[0].id))
  }

  // A result is charged its own text and, with the first of its response, that response.
  function Charge(ctx: Context, s: Scan, o: Observation): nat {
    var r := FindResponse(ctx.recorded, o.turn, o.callId);
    |Serialized(Project(ctx, o))| +
    if r.Some? && ResponseKey(ctx, o).value !in s.counted then ctx.responseSize(r.value.response) else 0
  }

  function Consider(ctx: Context, w: seq<Observation>, s: Scan, k: nat): Scan
    requires k < |w|
  {
    var o := w[k];
    if !Considered(ctx, s, o) then s
    else
      var noted := Note(ctx, s, o);
      var key, charge := ResponseKey(ctx, o), Charge(ctx, s, o);
      var counted := if key.Some? then s.counted + {key.value} else s.counted;
      if Sum(s.charges) + charge > MAX_HISTORY_CHARS && BatchOf(o) !in s.batches
      then noted.(counted := counted, stopped := true)
      else noted.(counted := counted, picked := s.picked + [k], charges := s.charges + [charge],
                  batches := s.batches + {BatchOf(o)})
  }

  const EMPTY_SCAN: Scan := Scan([], [], {}, {}, {}, {}, {}, false)

  // The scan of the window from its end down to position k.
  function ScanFrom(ctx: Context, w: seq<Observation>, k: nat): Scan
    requires k <= |w|
    decreases |w| - k
  {
    if k == |w| then EMPTY_SCAN else Consider(ctx, w, ScanFrom(ctx, w, k + 1), k)
  }

  function WindowOf(observations: seq<Observation>): seq<Observation> {
    if |observations| <= WINDOW then observations else observations[|observations| - WINDOW..]
  }

  predicate InWindow(w: seq<Observation>, picked: seq<nat>) {
    forall i :: 0 <= i < |picked| ==> picked[i] < |w|
  }

  function ProjectAll(ctx: Context, w: seq<Observation>, picked: seq<nat>): seq<Observation>
    requires InWindow(w, picked)
  {
    seq(|picked|, i requires 0 <= i < |picked| => Project(ctx, w[picked[i]]))
  }

  // ---------------------------------------------------------------- what every scan keeps

  ghost predicate Ordered(ctx: Context, w: seq<Observation>, s: Scan, k: nat) {
    && InWindow(w, s.picked) && |s.charges| == |s.picked|
    && (forall i :: 0 <= i < |s.picked| ==> k <= s.picked[i] && Relevant(ctx, w[s.picked[i]]))
    && (forall i, j :: 0 <= i < j < |s.picked| ==> s.picked[j] < s.picked[i])
  }

  /** The retained results are relevant, and they are taken from the newest to the oldest. */
  lemma {:induction false} ScanIsOrdered(ctx: Context, w: seq<Observation>, k: nat)
    requires k <= |w|
    ensures Ordered(ctx, w, ScanFrom(ctx, w, k), k)
    decreases |w| - k
  {
    if k < |w| {
      ScanIsOrdered(ctx, w, k + 1);
    }
  }

  ghost predicate FreshReads(ctx: Context, w: seq<Observation>, s: Scan)
    requires InWindow(w, s.picked)
  {
    && |s.readBatches| <= MAX_NATIVE_READ_BATCHES
    && (forall i :: 0 <= i < |s.picked| && IsRead(w[s.picked[i]]) ==>
          var o := w[s.picked[i]];
          !Outdated(ctx, o) && Identity(o) in s.ranges && BatchOf(o) in s.readBatches)
    && (forall i, j :: 0 <= i < j < |s.picked| && IsRead(w[s.picked[i]]) && IsRead(w[s.picked[j]]) ==>
          Identity(w[s.picked[i]]) != Identity(w[s.picked[j]]))
  }

  /**
   * Replayed reads agree with the current source, no range is replayed twice, and they come from
   * at most two decisions.
   */
  lemma {:induction false} ReplayedReadsAreFresh(ctx: Context, w: seq<Observation>, k: nat)
    requires k <= |w|
    ensures InWindow(w, ScanFrom(ctx, w, k).picked) && FreshReads(ctx, w, ScanFrom(ctx, w, k))
    decreases |w| - k
  {
    if k < |w| {
      ReplayedReadsAreFresh(ctx, w, k + 1);
      ConsiderKeepsFresh(ctx, w, ScanFrom(ctx, w, k + 1), k);
    }
  }

  lemma {:induction false} ConsiderKeepsFresh(ctx: Context, w: seq<Observation>, s: Scan, k: nat)
    requires k < |w| && InWindow(w, s.picked) && FreshReads(ctx, w, s)
    ensures InWindow(w, Consider(ctx, w, s, k).picked) && FreshReads(ctx, w, Consider(ctx, w, s, k))
  {
  }

  lemma {:induction false} ScanGrows(ctx: Context, w: seq<Observation>, i: nat, k: nat)
    requires i <= k <= |w|
    ensures ScanFrom(ctx, w, k).picked <= ScanFrom(ctx, w, i).picked
    ensures ScanFrom(ctx, w, k).stopped ==> ScanFrom(ctx, w, i) == ScanFrom(ctx, w, k)
    decreases k - i
  {
    if i < k {
      ScanGrows(ctx, w, i + 1, k);
    }
  }

  // The lanes seen so far are those of the relevant results, as long as the scan goes on.
  lemma {:induction false} SeenLanes(ctx: Context, w: seq<Observation>, k: nat, lane: string)
    requires k <= |w| && lane != "" && !ScanFrom(ctx, w, k).stopped
    ensures lane in ScanFrom(ctx, w, k).seen <==>
            exists j :: k <= j < |w| && Relevant(ctx, w[j]) && Lane(ctx, w[j]) == lane
    decreases |w| - k
  {
    if k < |w| {
      OneMoreLane(ctx, w, ScanFrom(ctx, w, k + 1), k, lane);
      SeenLanes(ctx, w, k + 1, lane);
    }
  }

  lemma {:induction false} OneMoreLane(ctx: Context, w: seq<Observation>, s: Scan, k: nat, lane: string)
    requires k < |w| && lane != "" && !Consider(ctx, w, s, k).stopped
    ensures !s.stopped
    ensures lane in Consider(ctx, w, s, k).seen <==> lane in s.seen || (Relevant(ctx, w[k]) && Lane(ctx, w[k]) == lane)
  {
    assert Lane(ctx, w[k]) == lane ==> !IsRead(w[k]);
  }

  /**
   * Of a lane that the scan reaches before the budget ends it, exactly the newest relevant result
   * is retained.
   */
  lemma {:induction false} LaneKeepsItsNewest(ctx: Context, w: seq<Observation>, k: nat)
    requires k < |w| && Lane(ctx, w[k]) != "" && !ScanFrom(ctx, w, k).stopped
    ensures k in ScanFrom(ctx, w, 0).picked <==>
            Relevant(ctx, w[k]) && forall j :: k < j < |w| && Relevant(ctx, w[j]) ==> Lane(ctx, w[j]) != Lane(ctx, w[k])
  {
    var before, after := ScanFrom(ctx, w, k + 1), ScanFrom(ctx, w, k);
    SeenLanes(ctx, w, k + 1, Lane(ctx, w[k]));
    ScanIsOrdered(ctx, w, k + 1);
    ScanIsOrdered(ctx, w, 0);
    ScanGrows(ctx, w, 0, k);
    assert !IsRead(w[k]);
    var all := ScanFrom(ctx, w, 0).picked;
    if k in all {
      var i: nat :| i < |all| && all[i] == k;
      OnlyItsOwnStepPicks(ctx, w, k, i);
    } else {
      assert k !in after.picked;
    }
  }

  // A position is picked by its own step or never.
  lemma {:induction false} OnlyItsOwnStepPicks(ctx: Context, w: seq<Observation>, k: nat, i: nat)
    requires k < |w| && i < |ScanFrom(ctx, w, 0).picked| && ScanFrom(ctx, w, 0).picked[i] == k
    ensures i < |ScanFrom(ctx, w, k).picked| && ScanFrom(ctx, w, k).picked[i] == k
  {
    var all, here := ScanFrom(ctx, w, 0).picked, ScanFrom(ctx, w, k).picked;
    ScanGrows(ctx, w, 0, k);
    PickedBelow(ctx, w, 0, k);
  }

  lemma {:induction false} PickedBelow(ctx: Context, w: seq<Observation>, i: nat, k: nat)
    requires i <= k <= |w|
    ensures ScanFrom(ctx, w, k).picked <= ScanFrom(ctx, w, i).picked
    ensures forall n :: |ScanFrom(ctx, w, k).picked| <= n < |ScanFrom(ctx, w, i).picked| ==> ScanFrom(ctx, w, i).picked[n] < k
    decreases k - i
  {
    if i < k {
      PickedBelow(ctx, w, i + 1, k);
    }
  }

  // ---------------------------------------------------------------- the size of the history

  ghost predicate AdmittedBatch(w: seq<Observation>, picked: seq<nat>, n: nat, b: BatchId)
    requires InWindow(w, picked)
  {
    exists i :: 0 <= i < n && i < |picked| && BatchOf(w[picked[i]]) == b
  }

  // Everything retained past the limit belongs to a decision that was admitted before it.
  ghost predicate OverrunIsAdmitted(w: seq<Observation>, s: Scan)
    requires InWindow(w, s.picked) && |s.charges| == |s.picked|
  {
    forall i :: 0 <= i < |s.picked| && Sum(s.charges[..i + 1]) > MAX_HISTORY_CHARS ==>
      AdmittedBatch(w, s.picked, i, BatchOf(w[s.picked[i]]))
  }

  ghost predicate Accounted(w: seq<Observation>, s: Scan) {
    && InWindow(w, s.picked) && |s.charges| == |s.picked| && OverrunIsAdmitted(w, s)
    && forall b :: b in s.batches ==> AdmittedBatch(w, s.picked, |s.picked|, b)
  }

  lemma {:induction false} AdmittedStays(w: seq<Observation>, picked: seq<nat>, k: nat, n: nat, b: BatchId)
    requires InWindow(w, picked + [k]) && n <= |picked| && InWindow(w, picked) && AdmittedBatch(w, picked, n, b)
    ensures AdmittedBatch(w, picked + [k], n, b)
    ensures AdmittedBatch(w, picked + [k], |picked| + 1, b)
  {
    var i :| 0 <= i < n && i < |picked| && BatchOf(w[picked[i]]) == b;
    assert (picked + [k])[i] == picked[i];
  }

  lemma {:induction false} PickStaysAccounted(w: seq<Observation>, s: Scan, k: nat, charge: nat, t: Scan)
    requires k < |w| && Accounted(w, s)
    requires Sum(s.charges) + charge <= MAX_HISTORY_CHARS || BatchOf(w[k]) in s.batches
    requires t.picked == s.picked + [k] && t.charges == s.charges + [charge] && t.batches == s.batches + {BatchOf(w[k])}
    ensures Accounted(w, t)
  {
    var n := |s.picked|;
    assert t.charges[..n + 1] == t.charges && t.charges[..n] == s.charges;
    forall i | 0 <= i < |t.picked| && Sum(t.charges[..i + 1]) > MAX_HISTORY_CHARS
      ensures AdmittedBatch(w, t.picked, i, BatchOf(w[t.picked[i]]))
    {
      if i < n {
        assert t.charges[..i + 1] == s.charges[..i + 1];
        AdmittedStays(w, s.picked, k, i, BatchOf(w[s.picked[i]]));
      } else {
        AdmittedStays(w, s.picked, k, n, BatchOf(w[k]));
      }
    }
    forall b | b in t.batches
      ensures AdmittedBatch(w, t.picked, n + 1, b)
    {
      if b in s.batches {
        AdmittedStays(w, s.picked, k, n, b);
      } else {
        assert t.picked[n] == k;
      }
    }
  }

  lemma {:induction false} ScanOverrun(ctx: Context, w: seq<Observation>, k: nat)
    requires k <= |w|
    ensures Accounted(w, ScanFrom(ctx, w, k))
    decreases |w| - k
  {
    if k < |w| {
      ScanOverrun(ctx, w, k + 1);
      var before, after := ScanFrom(ctx, w, k + 1), ScanFrom(ctx, w, k);
      if after.picked != before.picked {
        PickStaysAccounted(w, before, k, Charge(ctx, before, w[k]), after);
      }
    }
  }

  lemma {:induction false} SumGrows(ns: seq<nat>, i: nat, j: nat)
    requires i <= j <= |ns|
    ensures Sum(ns[..i]) <= Sum(ns[..j])
    decreases j
  {
    if i < j {
      SumGrows(ns, i, j - 1);
      assert ns[..j][..j - 1] == ns[..j - 1];
    }
  }

  // The results of one decision stand next to each other.
  predicate Grouped(w: seq<Observation>) {
    forall i, j, k :: 0 <= i < j < k < |w| && BatchOf(w[i]) == BatchOf(w[k]) ==> BatchOf(w[j]) == BatchOf(w[i])
  }

  /** Results that carry the turn they were recorded in, in the order of the turns, are grouped. */
  lemma {:induction false} ChronologicalIsGrouped(w: seq<Observation>)
    requires forall i :: 0 <= i < |w| ==> w[i].turn.Some?
    requires forall i, j :: 0 <= i < j < |w| ==> w[i].turn.value <= w[j].turn.value
    ensures Grouped(w)
  {
  }

  // The longest run of retained results that stays within the limit.
  ghost predicate Within(s: Scan, fits: nat) {
    && fits <= |s.charges| && Sum(s.charges[..fits]) <= MAX_HISTORY_CHARS
    && (fits < |s.charges| ==> Sum(s.charges[..fits + 1]) > MAX_HISTORY_CHARS)
  }

  lemma {:induction false} SomeRunFits(s: Scan) returns (fits: nat)
    ensures Within(s, fits)
  {
    fits := 0;
    while fits < |s.charges| && Sum(s.charges[..fits + 1]) <= MAX_HISTORY_CHARS
      invariant fits <= |s.charges| && Sum(s.charges[..fits]) <= MAX_HISTORY_CHARS
    {
      fits := fits + 1;
    }
  }

  // What is retained past the limit, when the results of each decision stand together.
  ghost predicate RestOfOneBatch(w: seq<Observation>, picked: seq<nat>, fits: nat)
    requires InWindow(w, picked)
  {
    forall i :: fits <= i < |picked| ==> AsLastFitting(w, picked, fits, i)
  }

  ghost predicate AsLastFitting(w: seq<Observation>, picked: seq<nat>, fits: nat, i: nat)
    requires InWindow(w, picked) && fits <= i < |picked|
  {
    0 < fits && BatchOf(w[picked[i]]) == BatchOf(w[picked[fits - 1]])
  }

  /**
   * The longest run of retained results within 100,000 characters: whatever is retained beyond it
   * was admitted with one of its decisions, and if the results of a decision stand together in the
   * window, it is the rest of the one decision admitted last.
   */
  lemma {:induction false} OverrunIsTheRestOfOneBatch(ctx: Context, w: seq<Observation>) returns (fits: nat)
    ensures var s := ScanFrom(ctx, w, 0);
            && InWindow(w, s.picked) && |s.charges| == |s.picked| && Within(s, fits)
            && (forall i :: fits <= i < |s.picked| ==> AdmittedBatch(w, s.picked, fits, BatchOf(w[s.picked[i]])))
            && (Grouped(w) ==> RestOfOneBatch(w, s.picked, fits))
  {
    var s := ScanFrom(ctx, w, 0);
    ScanOverrun(ctx, w, 0);
    ScanIsOrdered(ctx, w, 0);
    fits := SomeRunFits(s);
    forall i | fits <= i < |s.picked|
      ensures AdmittedBatch(w, s.picked, fits, BatchOf(w[s.picked[i]]))
    {
      AdmittedEarly(w, s, fits, i);
    }
    if Grouped(w) {
      GroupedRest(w, s.picked, fits);
    }
  }

  lemma {:induction false} GroupedRest(w: seq<Observation>, picked: seq<nat>, fits: nat)
    requires InWindow(w, picked) && Grouped(w)
    requires forall i, j :: 0 <= i < j < |picked| ==> picked[j] < picked[i]
    requires forall i :: fits <= i < |picked| ==> AdmittedBatch(w, picked, fits, BatchOf(w[picked[i]]))
    ensures RestOfOneBatch(w, picked, fits)
  {
    forall i | fits <= i < |picked|
      ensures AsLastFitting(w, picked, fits, i)
    {
      var j: nat :| j < fits && j < |picked| && BatchOf(w[picked[j]]) == BatchOf(w[picked[i]]);
      assert j < fits - 1 ==> picked[i] < picked[fits - 1] < picked[j];
    }
  }

  lemma {:induction false} AdmittedEarly(w: seq<Observation>, s: Scan, fits: nat, i: nat)
    requires InWindow(w, s.picked) && |s.charges| == |s.picked| && OverrunIsAdmitted(w, s)
    requires fits <= i < |s.picked| && Sum(s.charges[..fits + 1]) > MAX_HISTORY_CHARS
    ensures AdmittedBatch(w, s.picked, fits, BatchOf(w[s.picked[i]]))
    decreases i
  {
    SumGrows(s.charges, fits + 1, i + 1);
    var b := BatchOf(w[s.picked[i]]);
    var j :| 0 <= j < i && BatchOf(w[s.picked[j]]) == b;
    if j >= fits {
      AdmittedEarly(w, s, fits, j);
    }
  }

  lemma {:induction false} PickedBatchesAreKnown(ctx: Context, w: seq<Observation>, k: nat)
    requires k <= |w|
    ensures InWindow(w, ScanFrom(ctx, w, k).picked)
    ensures forall i :: 0 <= i < |ScanFrom(ctx, w, k).picked| ==>
              BatchOf(w[ScanFrom(ctx, w, k).picked[i]]) in ScanFrom(ctx, w, k).batches
    decreases |w| - k
  {
    if k < |w| {
      PickedBatchesAreKnown(ctx, w, k + 1);
    }
  }

  /**
   * The budget cuts the window between two decisions: when it ends the scan at position k, nothing
   * from k on back belongs to a decision of which a result is retained.
   */
  lemma {:induction false} BudgetNeverSplitsADecision(ctx: Context, w: seq<Observation>, k: nat, j: nat, i: nat)
    requires Grouped(w) && j <= k < |w|
    requires !ScanFrom(ctx, w, k + 1).stopped && ScanFrom(ctx, w, k).stopped
    requires i < |ScanFrom(ctx, w, 0).picked|
    ensures k < ScanFrom(ctx, w, 0).picked[i] < |w|
    ensures BatchOf(w[j]) != BatchOf(w[ScanFrom(ctx, w, 0).picked[i]])
  {
    ScanGrows(ctx, w, 0, k);
    PickedBatchesAreKnown(ctx, w, k + 1);
    ScanIsOrdered(ctx, w, k + 1);
    assert ScanFrom(ctx, w, k).picked == ScanFrom(ctx, w, k + 1).picked;
  }

  // The retained results and their size are those of the scan.
  predicate Collected(ctx: Context, w: seq<Observation>, s: Scan, retained: seq<Observation>, chars: nat) {
    InWindow(w, s.picked) && retained == ProjectAll(ctx, w, s.picked) && chars == Sum(s.charges)
  }

  lemma {:induction false} CollectedPick(ctx: Context, w: seq<Observation>, s: Scan, k: nat, retained: seq<Observation>, chars: nat)
    requires k < |w| && Collected(ctx, w, s, retained, chars)
    requires Considered(ctx, s, w[k])
    ensures var t, charge := Consider(ctx, w, s, k), Charge(ctx, s, w[k]);
            if chars + charge > MAX_HISTORY_CHARS && BatchOf(w[k]) !in s.batches then t.stopped && Collected(ctx, w, t, retained, chars)
            else !t.stopped && t.batches == s.batches + {BatchOf(w[k])}
                 && Collected(ctx, w, t, retained + [Project(ctx, w[k])], chars + charge)
  {
    var charge := Charge(ctx, s, w[k]);
    assert (s.charges + [charge])[..|s.charges|] == s.charges;
  }

  // ---------------------------------------------------------------- the scan as the source runs it

  // The size of one result, and of its response if no earlier result was charged for that.
  method ChargeResult(ctx: Context, ghost s: Scan, o: Observation, payload: Observation, before: set<(nat, string)>)
    returns (size: nat, counted: set<(nat, string)>)
    requires before == s.counted && payload == Project(ctx, o)
    ensures size == Charge(ctx, s, o)
    ensures counted == if ResponseKey(ctx, o).Some? then before + {ResponseKey(ctx, o).value} else before
  {
    size, counted := |Serialized(payload)|, before;
    var response := FindResponse(ctx.recorded, o.turn, o.callId);
    if response.Some? && (response.value.turn, response.value.response.calls[0].id) !in counted {
      size := size + ctx.responseSize(response.value.response);
      counted := counted + {(response.value.turn, response.value.response.calls[0].id)};
    }
  }

  /** Retains results from the newest to the oldest and adds up what they are charged. */
  method RetainObservations(ctx: Context, observations: seq<Observation>)
    returns (retained: seq<Observation>, chars: nat)
    ensures var w := WindowOf(observations);
            var scan := ScanFrom(ctx, w, 0);
            InWindow(w, scan.picked) && retained == ProjectAll(ctx, w, scan.picked) && chars == Sum(scan.charges)
  {
    var w := WindowOf(observations);
    var seen: set<string>, ranges: set<seq<Document>> := {}, {};
    var readBatches: set<BatchId>, batches: set<BatchId> := {}, {};
    var counted: set<(nat, string)> := {};
    retained, chars := [], 0;
    ghost var scan := EMPTY_SCAN;
    var k: nat := |w|;
    while k > 0
      invariant k <= |w|
      invariant scan == ScanFrom(ctx, w, k) && !scan.stopped
      invariant seen == scan.seen && ranges == scan.ranges && readBatches == scan.readBatches
      invariant batches == scan.batches && counted == scan.counted
      invariant Collected(ctx, w, scan, retained, chars)
    {
      k := k - 1;
      ghost var before := scan;
      scan := Consider(ctx, w, before, k);
      assert scan == ScanFrom(ctx, w, k);
      var o := w[k];
      if !Relevant(ctx, o) {
        continue;
      }
      var batch := BatchOf(o);
      if IsRead(o) {
        if Outdated(ctx, o) || Identity(o) in ranges {
          continue;
        }
        if batch !in readBatches && |readBatches| >= MAX_NATIVE_READ_BATCHES {
          continue;
        }
        readBatches := readBatches + {batch};
        ranges := ranges + {Identity(o)};
      }
      var lane := Lane(ctx, o);
      if lane != "" && lane in seen {
        continue;
      }
      if lane != "" {
        seen := seen + {lane};
      }
      assert Considered(ctx, before, o);
      var payload := Project(ctx, o);
      var size;
      size, counted := ChargeResult(ctx, before, o, payload, counted);
      CollectedPick(ctx, w, before, k, retained, chars);
      if chars + size > MAX_HISTORY_CHARS && batch !in batches {
        ScanGrows(ctx, w, 0, k);
        return;
      }
      retained := retained + [payload];
      batches := batches + {batch};
      chars := chars + size;
    }
  }

  // ---------------------------------------------------------------- replaying the retained results

  // One call of append_tool_batch_exchange: a model turn, its calls and their results.
  datatype Exchange = Exchange(
    content: Option<string>, reasoning: Option<string>, calls: seq<Call>, results: seq<Observation>)

  function Reversed<T>(s: seq<T>): (r: seq<T>)
    ensures |r| == |s| && forall i :: 0 <= i < |s| ==> r[i] == s[|s| - 1 - i]
  {
    seq(|s|, i requires 0 <= i < |s| => s[|s| - 1 - i])
  }

  predicate Answering(o: Observation, turn: Option<nat>, id: string) {
    o.turn == turn && o.callId == id
  }

  // The result of a call; of several the oldest, as in a dictionary built from the newest on.
  function FindResult(shown: seq<Observation>, turn: Option<nat>, id: string): (o: Option<Observation>)
    ensures o.Some? ==> Answering(o.value, turn, id) && o.value in shown
    ensures o.None? ==> forall i :: 0 <= i < |shown| ==> !Answering(shown[i], turn, id)
  {
    if shown == [] then None
    else if Answering(shown[0], turn, id) then Some(shown[0])
    else FindResult(shown[1..], turn, id)
  }

  predicate Complete(r: Recorded, shown: seq<Observation>) {
    forall k :: 0 <= k < |r.response.calls| ==> FindResult(shown, Some(r.turn), r.response.calls[k].id).Some?
  }

  function Bare(o: Observation): Observation {
    o.(arguments := Object([]))
  }

  // A recorded response with every call and every result, in call order.
  function Native(r: Recorded, shown: seq<Observation>): Exchange
    requires Complete(r, shown)
  {
    Exchange(r.response.content, r.response.reasoning, r.response.calls,
             seq(|r.response.calls|, k requires 0 <= k < |r.response.calls| =>
               Bare(FindResult(shown, Some(r.turn), r.response.calls[k].id).value)))
  }

  // A result without a recorded response: one call with one result.
  function Pair(o: Observation): Exchange {
    Exchange(None, None, [Call(o.callId, o.name, o.arguments)], [Bare(o)])
  }

  datatype Replay = Replay(exchanges: seq<Exchange>, emitted: set<(nat, string)>)

  function EmitOne(recorded: seq<Recorded>, shown: seq<Observation>, s: Replay, o: Observation): Replay {
    var r := FindResponse(recorded, o.turn, o.callId);
    if r.None? then s.(exchanges := s.exchanges + [Pair(o)])
    else
      var id := (r.value.turn, r.value.response.calls[0].id);
      if id in s.emitted then s
      else Replay(if Complete(r.value, shown) then s.exchanges + [Native(r.value, shown)] else s.exchanges,
                  s.emitted + {id})
  }

  // The replay of the first n results, oldest first.
  function Emit(recorded: seq<Recorded>, shown: seq<Observation>, n: nat): Replay
    requires n <= |shown|
  {
    if n == 0 then Replay([], {}) else EmitOne(recorded, shown, Emit(recorded, shown, n - 1), shown[n - 1])
  }

  function ReplayAll(recorded: seq<Recorded>, shown: seq<Observation>): seq<Exchange> {
    Emit(recorded, shown, |shown|).exchanges
  }

  method EmitExchanges(recorded: seq<Recorded>, retained: seq<Observation>) returns (exchanges: seq<Exchange>)
    ensures exchanges == ReplayAll(recorded, Reversed(retained))
  {
    var shown := Reversed(retained);
    exchanges := [];
    var emitted: set<(nat, string)> := {};
    for n := 0 to |shown|
      invariant Replay(exchanges, emitted) == Emit(recorded, shown, n)
    {
      var o := shown[n];
      var response := FindResponse(recorded, o.turn, o.callId);
      if response.Some? {
        var id := (response.value.turn, response.value.response.calls[0].id);
        if id in emitted {
          continue;
        }
        emitted := emitted + {id};
        if Complete(response.value, shown) {
          exchanges := exchanges + [Native(response.value, shown)];
        }
        continue;
      }
      exchanges := exchanges + [Pair(o)];
    }
  }

  // The exchange shows a result of one of the response's calls.
  predicate Touches(e: Exchange, r: Recorded) {
    exists k :: 0 <= k < |e.results| && Names(r, e.results[k].turn, e.results[k].callId)
  }

  ghost predicate AtomicIn(exchanges: seq<Exchange>, r: Recorded, shown: seq<Observation>, started: bool) {
    if started && Complete(r, shown) then
      exists i :: 0 <= i < |exchanges| && exchanges[i] == Native(r, shown) && TouchedOnlyAt(exchanges, r, i)
    else
      forall j :: 0 <= j < |exchanges| ==> !Touches(exchanges[j], r)
  }

  ghost predicate TouchedOnlyAt(exchanges: seq<Exchange>, r: Recorded, i: nat) {
    forall j :: 0 <= j < |exchanges| && Touches(exchanges[j], r) ==> j == i
  }

  lemma {:induction false} OneResponseNames(recorded: seq<Recorded>, r: Recorded, turn: Option<nat>, id: string)
    requires DistinctTurns(recorded) && r in recorded
    ensures Names(r, turn, id) <==> FindResponse(recorded, turn, id) == Some(r)
  {
    var i: nat :| i < |recorded| && recorded[i] == r;
    var found := FindResponse(recorded, turn, id);
    if Names(r, turn, id) && found.Some? {
      var j: nat :| j < |recorded| && recorded[j] == found.value;
      assert recorded[j].turn == recorded[i].turn;
      assert i == j;
    }
  }

  lemma {:induction false} PairTouches(o: Observation, r: Recorded)
    ensures Touches(Pair(o), r) <==> Names(r, o.turn, o.callId)
  {
    assert Pair(o).results[0] == Bare(o);
  }

  lemma {:induction false} NativeTouches(q: Recorded, shown: seq<Observation>, r: Recorded)
    requires Complete(q, shown) && Touches(Native(q, shown), r)
    ensures q.turn == r.turn
  {
  }

  // Whether the replay has come to a result of the response.
  predicate Started(r: Recorded, shown: seq<Observation>, n: nat)
    requires n <= |shown|
  {
    exists i :: 0 <= i < n && Names(r, shown[i].turn, shown[i].callId)
  }

  lemma {:induction false} AtomicAfterOne(exchanges: seq<Exchange>, r: Recorded, shown: seq<Observation>, started: bool, e: Exchange)
    requires AtomicIn(exchanges, r, shown, started) && !Touches(e, r)
    ensures AtomicIn(exchanges + [e], r, shown, started)
  {
    if started && Complete(r, shown) {
      var i :| 0 <= i < |exchanges| && exchanges[i] == Native(r, shown) && TouchedOnlyAt(exchanges, r, i);
      assert (exchanges + [e])[i] == Native(r, shown);
      assert TouchedOnlyAt(exchanges + [e], r, i);
    }
  }

  lemma {:induction false} EmittedIffStarted(recorded: seq<Recorded>, shown: seq<Observation>, r: Recorded, n: nat)
    requires DistinctTurns(recorded) && r in recorded && n <= |shown|
    ensures forall id :: (r.turn, id) in Emit(recorded, shown, n).emitted <==>
                         Started(r, shown, n) && id == r.response.calls[0].id
  {
    if n > 0 {
      EmittedIffStarted(recorded, shown, r, n - 1);
      var o := shown[n - 1];
      var found := FindResponse(recorded, o.turn, o.callId);
      OneResponseNames(recorded, r, o.turn, o.callId);
      if found.Some? && found.value != r {
        DifferentTurns(recorded, r, found.value);
      }
    }
  }

  lemma {:induction false} EmitIsAtomic(recorded: seq<Recorded>, shown: seq<Observation>, r: Recorded, n: nat)
    requires DistinctTurns(recorded) && r in recorded && n <= |shown|
    ensures AtomicIn(Emit(recorded, shown, n).exchanges, r, shown, Started(r, shown, n))
  {
    if n > 0 {
      EmitIsAtomic(recorded, shown, r, n - 1);
      EmittedIffStarted(recorded, shown, r, n - 1);
      var o, before := shown[n - 1], Emit(recorded, shown, n - 1);
      var found := FindResponse(recorded, o.turn, o.callId);
      OneResponseNames(recorded, r, o.turn, o.callId);
      assert Started(r, shown, n) <==> Started(r, shown, n - 1) || Names(r, o.turn, o.callId);
      if found.None? {
        PairTouches(o, r);
        AtomicAfterOne(before.exchanges, r, shown, Started(r, shown, n - 1), Pair(o));
      } else if found.value == r {
        AtomicAtFirst(before.exchanges, r, shown);
      } else if Complete(found.value, shown) {
        OtherNativeDoesNotTouch(recorded, shown, r, found.value);
        AtomicAfterOne(before.exchanges, r, shown, Started(r, shown, n - 1), Native(found.value, shown));
      }
    }
  }

  lemma {:induction false} OtherNativeDoesNotTouch(recorded: seq<Recorded>, shown: seq<Observation>, r: Recorded, q: Recorded)
    requires DistinctTurns(recorded) && r in recorded && q in recorded && r != q && Complete(q, shown)
    ensures !Touches(Native(q, shown), r)
  {
    DifferentTurns(recorded, r, q);
    if Touches(Native(q, shown), r) {
      NativeTouches(q, shown, r);
    }
  }

  lemma {:induction false} DifferentTurns(recorded: seq<Recorded>, r: Recorded, q: Recorded)
    requires DistinctTurns(recorded) && r in recorded && q in recorded && r != q
    ensures r.turn != q.turn
  {
    var i: nat :| i < |recorded| && recorded[i] == r;
    var j: nat :| j < |recorded| && recorded[j] == q;
  }

  lemma {:induction false} AtomicAtFirst(exchanges: seq<Exchange>, r: Recorded, shown: seq<Observation>)
    ensures AtomicIn(exchanges, r, shown, false) && Complete(r, shown) ==>
              AtomicIn(exchanges + [Native(r, shown)], r, shown, true)
    ensures AtomicIn(exchanges, r, shown, false) && !Complete(r, shown) ==> AtomicIn(exchanges, r, shown, true)
  {
    if AtomicIn(exchanges, r, shown, false) && Complete(r, shown) {
      var all := exchanges + [Native(r, shown)];
      assert all[|exchanges|] == Native(r, shown);
      assert TouchedOnlyAt(all, r, |exchanges|);
    }
  }

  lemma {:induction false} CompleteIsStarted(r: Recorded, shown: seq<Observation>)
    requires Complete(r, shown) && r.response.calls != []
    ensures Started(r, shown, |shown|)
  {
    var call := r.response.calls[0];
    var o := FindResult(shown, Some(r.turn), call.id).value;
    var i: nat :| i < |shown| && shown[i] == o;
    assert Names(r, shown[i].turn, shown[i].callId);
  }

  /**
   * A recorded response is replayed as a whole or not at all: if a result of each of its calls was
   * retained, exactly one exchange shows results of it, and that one is the response with all its
   * calls and their results in call order; otherwise no exchange shows any of its results.
   */
  lemma {:induction false} NativeResponsesAreAtomic(recorded: seq<Recorded>, shown: seq<Observation>, r: Recorded)
    requires DistinctTurns(recorded) && r in recorded && r.response.calls != []
    ensures AtomicIn(ReplayAll(recorded, shown), r, shown, true)
  {
    EmitIsAtomic(recorded, shown, r, |shown|);
    if Complete(r, shown) {
      CompleteIsStarted(r, shown);
    }
  }

  // Every call of an exchange has its result, in call order.
  predicate Answered(e: Exchange) {
    |e.results| == |e.calls| && forall k :: 0 <= k < |e.calls| ==> e.results[k].callId == e.calls[k].id
  }

  /** Every exchange of a replay answers each of its calls, whatever was recorded and retained. */
  lemma {:induction false} EveryExchangeIsAnswered(recorded: seq<Recorded>, shown: seq<Observation>, n: nat)
    requires n <= |shown|
    ensures forall i :: 0 <= i < |Emit(recorded, shown, n).exchanges| ==> Answered(Emit(recorded, shown, n).exchanges[i])
  {
    if n > 0 {
      EveryExchangeIsAnswered(recorded, shown, n - 1);
    }
  }

  // ---------------------------------------------------------------- results without a response

  predicate Unrecorded(recorded: seq<Recorded>, o: Observation) {
    FindResponse(recorded, o.turn, o.callId).None?
  }

  // The single exchanges of the unrecorded results among the first n, oldest first.
  function PairsOf(recorded: seq<Recorded>, shown: seq<Observation>, n: nat): seq<Exchange>
    requires n <= |shown|
  {
    if n == 0 then []
    else PairsOf(recorded, shown, n - 1) + if Unrecorded(recorded, shown[n - 1]) then [Pair(shown[n - 1])] else []
  }

  // An exchange that shows no result of a recorded response.
  predicate Single(recorded: seq<Recorded>, e: Exchange) {
    forall k :: 0 <= k < |e.results| ==> Unrecorded(recorded, e.results[k])
  }

  function Singles(recorded: seq<Recorded>, exchanges: seq<Exchange>): seq<Exchange> {
    if exchanges == [] then []
    else
      var last := exchanges[|exchanges| - 1];
      Singles(recorded, exchanges[..|exchanges| - 1]) + if Single(recorded, last) then [last] else []
  }

  lemma {:induction false} SinglesSnoc(recorded: seq<Recorded>, exchanges: seq<Exchange>, e: Exchange)
    ensures Singles(recorded, exchanges + [e]) ==
            Singles(recorded, exchanges) + if Single(recorded, e) then [e] else []
  {
    assert (exchanges + [e])[..|exchanges|] == exchanges;
  }

  lemma {:induction false} NativeIsNotSingle(recorded: seq<Recorded>, shown: seq<Observation>, turn: Option<nat>, id: string)
    requires FindResponse(recorded, turn, id).Some? && Complete(FindResponse(recorded, turn, id).value, shown)
    ensures !Single(recorded, Native(FindResponse(recorded, turn, id).value, shown))
  {
    var r := FindResponse(recorded, turn, id).value;
    var e := Native(r, shown);
    var i: nat :| i < |recorded| && recorded[i] == r;
    assert e.results[0].callId == r.response.calls[0].id;
    assert Names(r, e.results[0].turn, e.results[0].callId);
  }

  /**
   * Every retained result without a recorded response is replayed as its own call and result, once
   * and in the order in which the results were recorded; no other exchange is of that kind.
   */
  lemma {:induction false} OthersAreReplayedAsPairs(recorded: seq<Recorded>, shown: seq<Observation>, n: nat)
    requires n <= |shown|
    ensures Singles(recorded, Emit(recorded, shown, n).exchanges) == PairsOf(recorded, shown, n)
  {
    if n > 0 {
      OthersAreReplayedAsPairs(recorded, shown, n - 1);
      var o, before := shown[n - 1], Emit(recorded, shown, n - 1);
      SinglesOfOne(recorded, shown, before, o);
    }
  }

  lemma {:induction false} SinglesOfOne(recorded: seq<Recorded>, shown: seq<Observation>, s: Replay, o: Observation)
    ensures Singles(recorded, EmitOne(recorded, shown, s, o).exchanges) ==
            Singles(recorded, s.exchanges) + if Unrecorded(recorded, o) then [Pair(o)] else []
  {
    var found := FindResponse(recorded, o.turn, o.callId);
    if found.None? {
      SinglesSnoc(recorded, s.exchanges, Pair(o));
      assert Single(recorded, Pair(o));
    } else if Complete(found.value, shown) {
      NativeIsNotSingle(recorded, shown, o.turn, o.callId);
      SinglesSnoc(recorded, s.exchanges, Native(found.value, shown));
    }
  }

  // ---------------------------------------------------------------- the messages

  function CallsOf(e: Exchange): seq<ToolLoop.ToolCall> {
    seq(|e.calls|, k requires 0 <= k < |e.calls| =>
      ToolLoop.ToolCall(e.calls[k].id, e.calls[k].name, Dumps(e.calls[k].arguments)))
  }

  function ResultsOf(e: Exchange): seq<ToolLoop.Observation> {
    seq(|e.results|, k requires 0 <= k < |e.results| =>
      ToolLoop.Observation(e.results[k].callId, e.results[k].name, e.results[k].ok, e.results[k].errorCode))
  }

  function MessagesOf(e: Exchange): seq<ToolLoop.Message>
    requires Answered(e)
  {
    ToolLoop.Exchange(
      ToolLoop.Turn(if e.content.Some? then e.content.value else "", e.reasoning, CallsOf(e)), ResultsOf(e))
  }

  function AllMessages(exchanges: seq<Exchange>): seq<ToolLoop.Message>
    requires forall i :: 0 <= i < |exchanges| ==> Answered(exchanges[i])
  {
    if exchanges == [] then []
    else AllMessages(exchanges[..|exchanges| - 1]) + MessagesOf(exchanges[|exchanges| - 1])
  }

  // A result keeps the name of the call it answers.
  predicate SameNames(e: Exchange) {
    |e.results| == |e.calls| && forall k :: 0 <= k < |e.calls| ==> e.results[k].name == e.calls[k].name
  }

  lemma {:induction false} ExchangesArePaired(exchanges: seq<Exchange>)
    requires forall i :: 0 <= i < |exchanges| ==> Answered(exchanges[i]) && SameNames(exchanges[i])
    ensures ToolLoop.WellPaired(AllMessages(exchanges))
  {
    if exchanges != [] {
      var e := exchanges[|exchanges| - 1];
      ExchangesArePaired(exchanges[..|exchanges| - 1]);
      ToolLoop.ExchangeWellPaired(
        ToolLoop.Turn(if e.content.Some? then e.content.value else "", e.reasoning, CallsOf(e)), ResultsOf(e));
      ToolLoop.WellPairedAppend(AllMessages(exchanges[..|exchanges| - 1]), MessagesOf(e));
    }
  }

  // What the engineering loop records of a response are results of its calls, under their names.
  ghost predicate Faithful(recorded: seq<Recorded>, results: seq<Observation>) {
    forall i, j, k :: 0 <= i < |results| && 0 <= j < |recorded| && 0 <= k < |recorded[j].response.calls| ==>
      Agrees(recorded[j], k, results[i])
  }

  ghost predicate Agrees(r: Recorded, k: nat, o: Observation)
    requires k < |r.response.calls|
  {
    Answering(o, Some(r.turn), r.response.calls[k].id) ==> o.name == r.response.calls[k].name
  }

  lemma {:induction false} NativeKeepsNames(recorded: seq<Recorded>, shown: seq<Observation>, r: Recorded)
    requires Faithful(recorded, shown) && r in recorded && Complete(r, shown)
    ensures SameNames(Native(r, shown))
  {
    var j: nat :| j < |recorded| && recorded[j] == r;
    forall k | 0 <= k < |r.response.calls|
      ensures Native(r, shown).results[k].name == r.response.calls[k].name
    {
      var o := FindResult(shown, Some(r.turn), r.response.calls[k].id).value;
      var i: nat :| i < |shown| && shown[i] == o;
      assert Agrees(recorded[j], k, shown[i]);
    }
  }

  lemma {:induction false} ReplayKeepsNames(recorded: seq<Recorded>, shown: seq<Observation>, n: nat)
    requires Faithful(recorded, shown) && n <= |shown|
    ensures forall i :: 0 <= i < |Emit(recorded, shown, n).exchanges| ==> SameNames(Emit(recorded, shown, n).exchanges[i])
  {
    if n > 0 {
      ReplayKeepsNames(recorded, shown, n - 1);
      var o := shown[n - 1];
      var found := FindResponse(recorded, o.turn, o.callId);
      if found.Some? && Complete(found.value, shown) {
        NativeKeepsNames(recorded, shown, found.value);
      }
    }
  }

  /** What is replayed of any results recorded under the names of their calls is a well-paired history. */
  lemma {:induction false} ReplayIsWellPaired(recorded: seq<Recorded>, shown: seq<Observation>)
    requires Faithful(recorded, shown)
    ensures var exchanges := ReplayAll(recorded, shown);
            (forall i :: 0 <= i < |exchanges| ==> Answered(exchanges[i])) && ToolLoop.WellPaired(AllMessages(exchanges))
  {
    EveryExchangeIsAnswered(recorded, shown, |shown|);
    ReplayKeepsNames(recorded, shown, |shown|);
    ExchangesArePaired(ReplayAll(recorded, shown));
  }

  // ---------------------------------------------------------------- selection and replay together

  lemma {:induction false} RetainedStaysFaithful(ctx: Context, w: seq<Observation>, picked: seq<nat>)
    requires InWindow(w, picked) && Faithful(ctx.recorded, w)
    ensures Faithful(ctx.recorded, Reversed(ProjectAll(ctx, w, picked)))
  {
    var shown := Reversed(ProjectAll(ctx, w, picked));
    forall i, j, k | 0 <= i < |shown| && 0 <= j < |ctx.recorded| && 0 <= k < |ctx.recorded[j].response.calls|
      ensures Agrees(ctx.recorded[j], k, shown[i])
    {
      assert Agrees(ctx.recorded[j], k, w[picked[|picked| - 1 - i]]);
    }
  }

  // The exchanges that the next model turn sees of the recorded results.
  function Projected(ctx: Context, observations: seq<Observation>): seq<Exchange> {
    var w := WindowOf(observations);
    ScanIsOrdered(ctx, w, 0);
    ReplayAll(ctx.recorded, Reversed(ProjectAll(ctx, w, ScanFrom(ctx, w, 0).picked)))
  }

  method ProjectHistory(ctx: Context, observations: seq<Observation>) returns (exchanges: seq<Exchange>)
    ensures exchanges == Projected(ctx, observations)
  {
    var retained, _ := RetainObservations(ctx, observations);
    exchanges := EmitExchanges(ctx.recorded, retained);
  }

  /**
   * The projected history as a whole: whatever results were recorded and whichever of them are
   * retained, it is well paired, and every recorded response is in it once and complete or not at all.
   */
  lemma {:induction false} ProjectedHistoryIsSound(ctx: Context, observations: seq<Observation>)
    requires Faithful(ctx.recorded, WindowOf(observations)) && DistinctTurns(ctx.recorded)
    ensures var exchanges := Projected(ctx, observations);
            (forall i :: 0 <= i < |exchanges| ==> Answered(exchanges[i])) && ToolLoop.WellPaired(AllMessages(exchanges))
    ensures forall r :: r in ctx.recorded && r.response.calls != [] ==> OnceOrNever(Projected(ctx, observations), r)
  {
    var w := WindowOf(observations);
    ScanIsOrdered(ctx, w, 0);
    var shown := Reversed(ProjectAll(ctx, w, ScanFrom(ctx, w, 0).picked));
    RetainedStaysFaithful(ctx, w, ScanFrom(ctx, w, 0).picked);
    ReplayIsWellPaired(ctx.recorded, shown);
    forall r | r in ctx.recorded && r.response.calls != []
      ensures OnceOrNever(Projected(ctx, observations), r)
    {
      NativeResponsesAreAtomic(ctx.recorded, shown, r);
      AtomicIsOnceOrNever(ReplayAll(ctx.recorded, shown), r, shown);
    }
  }

  // At most one exchange shows results of the response, and it holds the response's calls and text.
  ghost predicate OnceOrNever(exchanges: seq<Exchange>, r: Recorded) {
    || (forall j :: 0 <= j < |exchanges| ==> !Touches(exchanges[j], r))
    || (exists i :: 0 <= i < |exchanges| && IsWhole(exchanges[i], r) && TouchedOnlyAt(exchanges, r, i))
  }

  predicate IsWhole(e: Exchange, r: Recorded) {
    e.content == r.response.content && e.reasoning == r.response.reasoning && e.calls == r.response.calls && Answered(e)
  }

  lemma {:induction false} AtomicIsOnceOrNever(exchanges: seq<Exchange>, r: Recorded, shown: seq<Observation>)
    requires AtomicIn(exchanges, r, shown, true)
    ensures OnceOrNever(exchanges, r)
  {
    if Complete(r, shown) {
      var i :| 0 <= i < |exchanges| && exchanges[i] == Native(r, shown) && TouchedOnlyAt(exchanges, r, i);
      assert IsWhole(exchanges[i], r);
    }
  }
}
