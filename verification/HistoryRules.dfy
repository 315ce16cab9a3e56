/**
 * Which results the next turn still sees and what it sees of them, in plain terms.  Each result of
 * the window is judged against the newer ones that are already retained; the scan of EngineerHistory
 * is proved to make exactly this judgement.
 */
module HistoryRules {
  import opened Results
  import opened JsonText
  import opened ObservationText
  import opened EngineerHistory
  import Texts

  // ---------------------------------------------------------------- what one result is

  // A source read that succeeded.
  predicate SourceRead(o: Observation) {
    o.name == "read_file" && o.ok
  }

  predicate CheckResult(o: Observation) {
    o.name == "run_check" || o.name == "complete_work_item"
  }

  // Never shown again: protocol answers, reads while reading is off, and a failed check that passes now.
  predicate Retired(ctx: Context, o: Observation) {
    || o.name == "model_response" || o.name == "update_work_item_focus"
    || (ctx.readsUnavailable && o.ok && (o.name == "read_file" || o.name == "list_files" || o.name == "search_code"))
    || (CheckResult(o) && !o.ok && Get(o.data, "check_id") in ctx.checkOutcomes
        && ctx.checkOutcomes[Get(o.data, "check_id")] == "passed")
  }

  // The file is not marked stale and still has the content that was read, as far as it is known.
  predicate StillCurrent(ctx: Context, o: Observation) {
    && Get(o.data, "path") !in ctx.stalePaths
    && (Get(o.data, "path") in ctx.evidenceHashes ==> ctx.evidenceHashes[Get(o.data, "path")] == Get(o.data, "content_hash"))
  }

  predicate SameRange(a: Observation, b: Observation) {
    && Get(a.data, "path") == Get(b.data, "path") && Get(a.data, "content_hash") == Get(b.data, "content_hash")
    && Get(a.data, "start_line") == Get(b.data, "start_line") && Get(a.data, "end_line") == Get(b.data, "end_line")
  }

  // Results of one model turn belong together; without a turn each call stands alone.
  predicate SameDecision(a: Observation, b: Observation) {
    if a.turn.Some? then b.turn == a.turn else b.turn.None? && a.callId == b.callId
  }

  // Two plan updates, or two results of one check.
  predicate SameLane(ctx: Context, a: Observation, b: Observation) {
    || (a.name == "update_delivery_plan" && b.name == "update_delivery_plan")
    || (CheckResult(a) && CheckResult(b) && ctx.format(Get(a.data, "check_id")) == ctx.format(Get(b.data, "check_id")))
  }

  // ---------------------------------------------------------------- what is retained

  // Some newer retained result is such.
  ghost predicate AmongRetained(w: seq<Observation>, picked: seq<nat>, p: Observation -> bool)
    requires InWindow(w, picked)
  {
    exists i :: 0 <= i < |picked| && p(w[picked[i]])
  }

  // The decisions, other than the result's own, whose reads are retained: at most one.
  ghost predicate OneOtherDecision(w: seq<Observation>, picked: seq<nat>, o: Observation)
    requires InWindow(w, picked)
  {
    forall i, j :: 0 <= i < |picked| && 0 <= j < |picked| && OtherRead(w[picked[i]], o) && OtherRead(w[picked[j]], o) ==>
                     SameDecision(w[picked[i]], w[picked[j]])
  }

  predicate OtherRead(a: Observation, o: Observation) {
    SourceRead(a) && !SameDecision(a, o)
  }

  // Worth showing beside the newer results that are retained.
  ghost predicate WorthShowing(ctx: Context, w: seq<Observation>, picked: seq<nat>, o: Observation)
    requires InWindow(w, picked)
  {
    && !Retired(ctx, o)
    && (SourceRead(o) ==>
          && StillCurrent(ctx, o) && OneOtherDecision(w, picked, o)
          && forall i :: 0 <= i < |picked| && SourceRead(w[picked[i]]) ==> !SameRange(w[picked[i]], o))
    && forall i :: 0 <= i < |picked| ==> !SameLane(ctx, w[picked[i]], o)
  }

  // The response that the result belongs to has been charged with a newer result of it.
  ghost predicate AlreadyCharged(ctx: Context, w: seq<Observation>, picked: seq<nat>, o: Observation)
    requires InWindow(w, picked)
  {
    exists i :: 0 <= i < |picked| && SameResponse(ctx, w[picked[i]], o)
  }

  ghost predicate SameResponse(ctx: Context, a: Observation, b: Observation) {
    && FindResponse(ctx.recorded, a.turn, a.callId).Some? && FindResponse(ctx.recorded, b.turn, b.callId).Some?
    && var r, s := FindResponse(ctx.recorded, a.turn, a.callId).value, FindResponse(ctx.recorded, b.turn, b.callId).value;
       r.turn == s.turn && r.response.calls[0].id == s.response.calls[0].id
  }

  // The result as it is shown, and its response unless that is counted already.
  ghost function Price(ctx: Context, w: seq<Observation>, picked: seq<nat>, o: Observation): nat
    requires InWindow(w, picked)
  {
    var r := FindResponse(ctx.recorded, o.turn, o.callId);
    |Serialized(Project(ctx, o))| + if r.Some? && !AlreadyCharged(ctx, w, picked, o) then ctx.responseSize(r.value.response) else 0
  }

  // ---------------------------------------------------------------- the scan's own notes

  lemma {:induction false} DecisionIff(a: Observation, b: Observation)
    ensures BatchOf(a) == BatchOf(b) <==> SameDecision(a, b)
  {
  }

  lemma {:induction false} RangeIff(a: Observation, b: Observation)
    ensures Identity(a) == Identity(b) <==> SameRange(a, b)
  {
    var x, y := Identity(a), Identity(b);
    assert x == y <==> x[0] == y[0] && x[1] == y[1] && x[2] == y[2] && x[3] == y[3];
  }

  lemma {:induction false} LaneIff(ctx: Context, a: Observation, b: Observation)
    ensures Lane(ctx, a) != "" && Lane(ctx, a) == Lane(ctx, b) <==> SameLane(ctx, a, b)
  {
    var x, y := ctx.format(Get(a.data, "check_id")), ctx.format(Get(b.data, "check_id"));
    assert ("check:" + x)[6..] == x && ("check:" + y)[6..] == y;
    assert ("check:" + x)[0] == 'c' && ("check:" + y)[0] == 'c';
  }

  lemma {:induction false} RetiredIff(ctx: Context, o: Observation)
    ensures Relevant(ctx, o) <==> !Retired(ctx, o)
    ensures Outdated(ctx, o) <==> !StillCurrent(ctx, o)
    ensures IsRead(o) <==> SourceRead(o)
  {
  }

  // Until the scan stops, its sets hold exactly what is retained.
  ghost predicate NotesAreExact(ctx: Context, w: seq<Observation>, s: Scan) {
    && InWindow(w, s.picked) && |s.readBatches| <= 2
    && (forall x :: x in s.ranges <==> exists i :: 0 <= i < |s.picked| && RangeRead(w[s.picked[i]], x))
    && (forall b :: b in s.readBatches <==> exists i :: 0 <= i < |s.picked| && BatchRead(w[s.picked[i]], b))
    && (forall l :: l in s.seen <==> exists i :: 0 <= i < |s.picked| && OnLane(ctx, w[s.picked[i]], l))
    && (forall b :: b in s.batches <==> exists i :: 0 <= i < |s.picked| && BatchOf(w[s.picked[i]]) == b)
    && (forall x :: x in s.counted <==> exists i :: 0 <= i < |s.picked| && ResponseKey(ctx, w[s.picked[i]]) == Some(x))
  }

  predicate RangeRead(o: Observation, x: seq<Document>) {
    IsRead(o) && Identity(o) == x
  }

  predicate BatchRead(o: Observation, b: BatchId) {
    IsRead(o) && BatchOf(o) == b
  }

  predicate OnLane(ctx: Context, o: Observation, l: string) {
    l != "" && Lane(ctx, o) == l
  }

  lemma {:induction false} PickKeepsNotes(ctx: Context, w: seq<Observation>, s: Scan, k: nat, t: Scan)
    requires k < |w| && NotesAreExact(ctx, w, s) && t.picked == s.picked + [k]
    requires IsRead(w[k]) ==> BatchOf(w[k]) in s.readBatches || |s.readBatches| < 2
    requires t.ranges == if IsRead(w[k]) then s.ranges + {Identity(w[k])} else s.ranges
    requires t.readBatches == if IsRead(w[k]) then s.readBatches + {BatchOf(w[k])} else s.readBatches
    requires t.seen == if Lane(ctx, w[k]) != "" then s.seen + {Lane(ctx, w[k])} else s.seen
    requires t.batches == s.batches + {BatchOf(w[k])}
    requires t.counted == if ResponseKey(ctx, w[k]).Some? then s.counted + {ResponseKey(ctx, w[k]).value} else s.counted
    ensures NotesAreExact(ctx, w, t)
  {
    NotedRanges(w, s.picked, k, s.ranges, t.ranges);
    NotedBatches(w, s.picked, k, s.readBatches, t.readBatches);
    NotedLanes(ctx, w, s.picked, k, s.seen, t.seen);
    NotedDecisions(w, s.picked, k, s.batches, t.batches);
    NotedResponses(ctx, w, s.picked, k, s.counted, t.counted);
  }

  lemma {:induction false} NotedDecisions(w: seq<Observation>, picked: seq<nat>, k: nat, before: set<BatchId>, after: set<BatchId>)
    requires k < |w| && InWindow(w, picked)
    requires forall x :: x in before <==> exists i :: 0 <= i < |picked| && BatchOf(w[picked[i]]) == x
    requires after == before + {BatchOf(w[k])}
    ensures var all := picked + [k];
            InWindow(w, all) && forall x :: x in after <==> exists i :: 0 <= i < |all| && BatchOf(w[all[i]]) == x
  {
    var all := picked + [k];
    forall x
      ensures x in after <==> exists i :: 0 <= i < |all| && BatchOf(w[all[i]]) == x
    {
      assert BatchOf(w[all[|picked|]]) == BatchOf(w[k]);
      if i :| 0 <= i < |picked| && BatchOf(w[picked[i]]) == x {
        assert BatchOf(w[all[i]]) == x;
      }
    }
  }

  lemma {:induction false} NotedResponses(
      ctx: Context, w: seq<Observation>, picked: seq<nat>, k: nat, before: set<(nat, string)>, after: set<(nat, string)>)
    requires k < |w| && InWindow(w, picked)
    requires forall x :: x in before <==> exists i :: 0 <= i < |picked| && ResponseKey(ctx, w[picked[i]]) == Some(x)
    requires after == if ResponseKey(ctx, w[k]).Some? then before + {ResponseKey(ctx, w[k]).value} else before
    ensures var all := picked + [k];
            InWindow(w, all) && forall x :: x in after <==> exists i :: 0 <= i < |all| && ResponseKey(ctx, w[all[i]]) == Some(x)
  {
    var all := picked + [k];
    forall x
      ensures x in after <==> exists i :: 0 <= i < |all| && ResponseKey(ctx, w[all[i]]) == Some(x)
    {
      assert ResponseKey(ctx, w[all[|picked|]]) == ResponseKey(ctx, w[k]);
      if i :| 0 <= i < |picked| && ResponseKey(ctx, w[picked[i]]) == Some(x) {
        assert ResponseKey(ctx, w[all[i]]) == Some(x);
      }
    }
  }

  lemma {:induction false} NotedRanges(w: seq<Observation>, picked: seq<nat>, k: nat, before: set<seq<Document>>, after: set<seq<Document>>)
    requires k < |w| && InWindow(w, picked)
    requires forall x :: x in before <==> exists i :: 0 <= i < |picked| && RangeRead(w[picked[i]], x)
    requires after == if IsRead(w[k]) then before + {Identity(w[k])} else before
    ensures var all := picked + [k];
            InWindow(w, all) && forall x :: x in after <==> exists i :: 0 <= i < |all| && RangeRead(w[all[i]], x)
  {
    var all := picked + [k];
    forall x
      ensures x in after <==> exists i :: 0 <= i < |all| && RangeRead(w[all[i]], x)
    {
      assert RangeRead(w[all[|picked|]], x) <==> IsRead(w[k]) && Identity(w[k]) == x;
      if i :| 0 <= i < |picked| && RangeRead(w[picked[i]], x) {
        assert RangeRead(w[all[i]], x);
      }
    }
  }

  lemma {:induction false} NotedBatches(w: seq<Observation>, picked: seq<nat>, k: nat, before: set<BatchId>, after: set<BatchId>)
    requires k < |w| && InWindow(w, picked)
    requires forall x :: x in before <==> exists i :: 0 <= i < |picked| && BatchRead(w[picked[i]], x)
    requires after == if IsRead(w[k]) then before + {BatchOf(w[k])} else before
    ensures var all := picked + [k];
            InWindow(w, all) && forall x :: x in after <==> exists i :: 0 <= i < |all| && BatchRead(w[all[i]], x)
  {
    var all := picked + [k];
    forall x
      ensures x in after <==> exists i :: 0 <= i < |all| && BatchRead(w[all[i]], x)
    {
      assert BatchRead(w[all[|picked|]], x) <==> IsRead(w[k]) && BatchOf(w[k]) == x;
      if i :| 0 <= i < |picked| && BatchRead(w[picked[i]], x) {
        assert BatchRead(w[all[i]], x);
      }
    }
  }

  lemma {:induction false} NotedLanes(ctx: Context, w: seq<Observation>, picked: seq<nat>, k: nat, before: set<string>, after: set<string>)
    requires k < |w| && InWindow(w, picked)
    requires forall x :: x in before <==> exists i :: 0 <= i < |picked| && OnLane(ctx, w[picked[i]], x)
    requires after == if Lane(ctx, w[k]) != "" then before + {Lane(ctx, w[k])} else before
    ensures var all := picked + [k];
            InWindow(w, all) && forall x :: x in after <==> exists i :: 0 <= i < |all| && OnLane(ctx, w[all[i]], x)
  {
    var all := picked + [k];
    forall x
      ensures x in after <==> exists i :: 0 <= i < |all| && OnLane(ctx, w[all[i]], x)
    {
      assert OnLane(ctx, w[all[|picked|]], x) <==> x != "" && Lane(ctx, w[k]) == x;
      if i :| 0 <= i < |picked| && OnLane(ctx, w[picked[i]], x) {
        assert OnLane(ctx, w[all[i]], x);
      }
    }
  }

  lemma {:induction false} ConsiderKeepsNotes(ctx: Context, w: seq<Observation>, s: Scan, k: nat)
    requires k < |w| && NotesAreExact(ctx, w, s) && !Consider(ctx, w, s, k).stopped
    ensures !s.stopped && NotesAreExact(ctx, w, Consider(ctx, w, s, k))
  {
    if Considered(ctx, s, w[k]) {
      PickKeepsNotes(ctx, w, s, k, Consider(ctx, w, s, k));
    }
  }

  lemma {:induction false} ScanNotesExactly(ctx: Context, w: seq<Observation>, k: nat)
    requires k <= |w| && !ScanFrom(ctx, w, k).stopped
    ensures NotesAreExact(ctx, w, ScanFrom(ctx, w, k))
    decreases |w| - k
  {
    if k < |w| {
      if !ScanFrom(ctx, w, k + 1).stopped {
        ScanNotesExactly(ctx, w, k + 1);
        ConsiderKeepsNotes(ctx, w, ScanFrom(ctx, w, k + 1), k);
      }
    }
  }

  // ---------------------------------------------------------------- the judgement

  lemma {:induction false} ReadsAdmittedIff(ctx: Context, w: seq<Observation>, s: Scan, o: Observation)
    requires NotesAreExact(ctx, w, s)
    ensures BatchOf(o) in s.readBatches || |s.readBatches| < 2 <==> OneOtherDecision(w, s.picked, o)
  {
    if BatchOf(o) in s.readBatches || |s.readBatches| < 2 {
      forall i, j | 0 <= i < |s.picked| && 0 <= j < |s.picked| && OtherRead(w[s.picked[i]], o) && OtherRead(w[s.picked[j]], o)
        ensures SameDecision(w[s.picked[i]], w[s.picked[j]])
      {
        var a, b := w[s.picked[i]], w[s.picked[j]];
        DecisionIff(a, o);
        DecisionIff(b, o);
        DecisionIff(a, b);
        assert BatchRead(a, BatchOf(a)) && BatchRead(b, BatchOf(b));
        AtMostOne(s.readBatches, BatchOf(a), BatchOf(b), BatchOf(o));
      }
    } else {
      var x, y := TwoOf(s.readBatches);
      var i :| 0 <= i < |s.picked| && BatchRead(w[s.picked[i]], x);
      var j :| 0 <= j < |s.picked| && BatchRead(w[s.picked[j]], y);
      DecisionIff(w[s.picked[i]], o);
      DecisionIff(w[s.picked[j]], o);
      DecisionIff(w[s.picked[i]], w[s.picked[j]]);
      assert OtherRead(w[s.picked[i]], o) && OtherRead(w[s.picked[j]], o);
    }
  }

  lemma {:induction false} AtMostOne(s: set<BatchId>, a: BatchId, b: BatchId, o: BatchId)
    requires |s| <= 2 && a in s && b in s && a != o && b != o && (o in s || |s| < 2)
    ensures a == b
  {
    if a != b {
      assert {a, b} <= s && (o in s ==> {a, b, o} <= s);
      FitsIn({a, b}, s);
      if o in s {
        FitsIn({a, b, o}, s);
      }
    }
  }

  lemma {:induction false} FitsIn(a: set<BatchId>, b: set<BatchId>)
    requires a <= b
    ensures |a| <= |b|
  {
    assert b == a + (b - a);
  }

  lemma {:induction false} TwoOf(s: set<BatchId>) returns (x: BatchId, y: BatchId)
    requires |s| >= 2
    ensures x in s && y in s && x != y
  {
    x :| x in s;
    assert |s - {x}| >= 1;
    y :| y in s - {x};
  }

  lemma {:induction false} ConsideredIff(ctx: Context, w: seq<Observation>, s: Scan, o: Observation)
    requires NotesAreExact(ctx, w, s) && !s.stopped
    ensures Considered(ctx, s, o) <==> WorthShowing(ctx, w, s.picked, o)
  {
    RetiredIff(ctx, o);
    ReadsAdmittedIff(ctx, w, s, o);
    forall i | 0 <= i < |s.picked|
      ensures RangeRead(w[s.picked[i]], Identity(o)) <==> SourceRead(w[s.picked[i]]) && SameRange(w[s.picked[i]], o)
      ensures Lane(ctx, o) != "" && OnLane(ctx, w[s.picked[i]], Lane(ctx, o)) <==> SameLane(ctx, w[s.picked[i]], o)
    {
      RangeIff(w[s.picked[i]], o);
      LaneIff(ctx, w[s.picked[i]], o);
    }
  }

  lemma {:induction false} PriceIff(ctx: Context, w: seq<Observation>, s: Scan, o: Observation)
    requires NotesAreExact(ctx, w, s)
    ensures Charge(ctx, s, o) == Price(ctx, w, s.picked, o)
    ensures BatchOf(o) in s.batches <==> AmongRetained(w, s.picked, (a: Observation) => SameDecision(a, o))
  {
    if FindResponse(ctx.recorded, o.turn, o.callId).Some? {
      forall i | 0 <= i < |s.picked|
        ensures ResponseKey(ctx, w[s.picked[i]]) == ResponseKey(ctx, o) <==> SameResponse(ctx, w[s.picked[i]], o)
      {
      }
    }
    forall i | 0 <= i < |s.picked|
      ensures BatchOf(w[s.picked[i]]) == BatchOf(o) <==> SameDecision(w[s.picked[i]], o)
    {
      DecisionIff(w[s.picked[i]], o);
    }
  }

  /**
   * From the newest result to the oldest: one that is not worth showing is passed over; one that is
   * worth it is retained at its price if that fits into 100,000 characters or its decision is shown
   * already, and otherwise it ends the history there.
   */
  lemma {:induction false} RetainedIff(ctx: Context, w: seq<Observation>, k: nat)
    requires k < |w| && !ScanFrom(ctx, w, k + 1).stopped
    ensures var s, t := ScanFrom(ctx, w, k + 1), ScanFrom(ctx, w, k);
            InWindow(w, s.picked)
            && var price := Price(ctx, w, s.picked, w[k]);
            if !WorthShowing(ctx, w, s.picked, w[k]) then t == s
            else if Sum(s.charges) + price <= 100_000 || AmongRetained(w, s.picked, (a: Observation) => SameDecision(a, w[k])) then
              !t.stopped && t.picked == s.picked + [k] && t.charges == s.charges + [price]
            else t.stopped && t.picked == s.picked && t.charges == s.charges
  {
    ScanNotesExactly(ctx, w, k + 1);
    ConsideredIff(ctx, w, ScanFrom(ctx, w, k + 1), w[k]);
    PriceIff(ctx, w, ScanFrom(ctx, w, k + 1), w[k]);
  }

  /** The history looks at the last 24 results, and once it has ended nothing older is added. */
  lemma {:induction false} WindowIsTheLast24(ctx: Context, observations: seq<Observation>, k: nat)
    ensures WindowOf(observations) == observations[if |observations| > 24 then |observations| - 24 else 0..]
    ensures var w := WindowOf(observations);
            k <= |w| && ScanFrom(ctx, w, k).stopped ==> ScanFrom(ctx, w, 0).picked == ScanFrom(ctx, w, k).picked
    ensures ScanFrom(ctx, WindowOf(observations), |WindowOf(observations)|) == Scan([], [], {}, {}, {}, {}, {}, false)
  {
    var w := WindowOf(observations);
    if k <= |w| && ScanFrom(ctx, w, k).stopped {
      ScanGrows(ctx, w, 0, k);
    }
  }

  // ---------------------------------------------------------------- what is shown of it

  /** Long texts are cut at 12,000 characters with a note, and lists after 40 items, at every depth. */
  lemma {:induction false} CompactMeans(d: Document)
    ensures match d
            case Text(s) =>
              Compact(d) == Text(if |s| > 12_000 then s[..12_000] + "\n[历史内容已截断；需要完整证据时请定向重新读取]" else s)
            case List(items) =>
              && Compact(d).List? && |Compact(d).items| == (if |items| > 40 then 40 else |items|)
              && forall i :: 0 <= i < |Compact(d).items| ==> Compact(d).items[i] == Compact(items[i])
            case Object(members) =>
              && Compact(d).Object? && |Compact(d).members| == |members|
              && forall i :: 0 <= i < |members| ==> Compact(d).members[i] == (members[i].0, Compact(members[i].1))
            case _ => Compact(d) == d
  {
  }

  lemma {:induction false} PutThenFind(members: seq<(string, Document)>, key: string, v: Document, other: string)
    ensures Find(Put(members, key, v), other) == if other == key then v else Find(members, other)
  {
    if members != [] && members[0].0 != key {
      PutThenFind(members[1..], key, v, other);
      assert ([members[0]] + Put(members[1..], key, v))[1..] == Put(members[1..], key, v);
    }
  }

  /**
   * A result is shown with its texts and data compacted.  A source read shows the current excerpt
   * instead, a plan update keeps its whole arguments, and of a check's output over 1,200 characters
   * the first 300 and the last 700 stand around a note, beside the full length.
   */
  lemma {:induction false} ShownMeans(ctx: Context, o: Observation)
    ensures var p := Project(ctx, o);
            && (SourceRead(o) ==> p.summary == ctx.readView(o).summary && p.data == ctx.readView(o).data
                                  && p.truncated == (o.truncated || ctx.readView(o).cut))
            && (!SourceRead(o) ==> Text(p.summary) == Compact(Text(o.summary)))
            && p.arguments == (if o.name == "update_delivery_plan" then o.arguments else Compact(o.arguments))
            && (!SourceRead(o) && !CheckResult(o) ==> p.data == Compact(o.data) && p.truncated == o.truncated)
            && (CheckResult(o) && Get(o.data, "output").Text? && |Get(o.data, "output").s| > 1200 ==>
                  var output := Get(o.data, "output").s;
                  && p.truncated
                  && Get(p.data, "output") == Text(output[..300] + "\n[历史检查输出省略 " + Texts.Decimal(|output| - 1000)
                                                   + " 字符；完整日志已记录]\n" + output[|output| - 700..])
                  && Get(p.data, "output_total_chars") == Number(Texts.Decimal(|output|)))
            && (CheckResult(o) && !(Get(o.data, "output").Text? && |Get(o.data, "output").s| > 1200) ==>
                  p.data == Compact(o.data) && p.truncated == o.truncated)
  {
    var output := Get(o.data, "output");
    if CheckResult(o) && output.Text? && |output.s| > 1200 {
      var members := Compact(o.data).members;
      var shown := Put(members, "output", Text(OmitMiddle(output.s)));
      PutThenFind(members, "output", Text(OmitMiddle(output.s)), "output");
      PutThenFind(shown, "output_total_chars", Number(Texts.Decimal(|output.s|)), "output");
      PutThenFind(shown, "output_total_chars", Number(Texts.Decimal(|output.s|)), "output_total_chars");
    }
  }

  // ---------------------------------------------------------------- how it is replayed

  // The oldest shown result of a call.
  ghost predicate OldestAnswer(shown: seq<Observation>, turn: Option<nat>, id: string, i: int) {
    && 0 <= i < |shown| && shown[i].turn == turn && shown[i].callId == id
    && forall j :: 0 <= j < i ==> !(shown[j].turn == turn && shown[j].callId == id)
  }

  lemma {:induction false} AnswerIff(shown: seq<Observation>, turn: Option<nat>, id: string, i: nat)
    requires OldestAnswer(shown, turn, id, i)
    ensures FindResult(shown, turn, id) == Some(shown[i])
  {
    if i > 0 {
      assert !Answering(shown[0], turn, id);
      assert forall j :: 0 <= j < |shown| - 1 ==> shown[1..][j] == shown[j + 1];
      AnswerIff(shown[1..], turn, id, i - 1);
    }
  }

  /**
   * A replayed response has its content, its reasoning and all its calls as they were recorded, and
   * answers each call with the oldest shown result of it, less the arguments; any other result is
   * replayed as its own call with its arguments and then itself without them.
   */
  lemma {:induction false} ReplayMeans(r: Recorded, shown: seq<Observation>, o: Observation, k: nat, i: nat)
    ensures Complete(r, shown) ==>
              var e := Native(r, shown);
              && e.content == r.response.content && e.reasoning == r.response.reasoning && e.calls == r.response.calls
              && |e.results| == |e.calls|
              && (k < |e.calls| && OldestAnswer(shown, Some(r.turn), e.calls[k].id, i) ==>
                    e.results[k] == shown[i].(arguments := Object([])))
    ensures Pair(o) == Exchange(None, None, [Call(o.callId, o.name, o.arguments)], [o.(arguments := Object([]))])
  {
    if Complete(r, shown) && k < |r.response.calls| && OldestAnswer(shown, Some(r.turn), r.response.calls[k].id, i) {
      AnswerIff(shown, Some(r.turn), r.response.calls[k].id, i);
    }
  }

  // The last recorded response of the turn that has the call.
  ghost predicate LastNaming(recorded: seq<Recorded>, turn: Option<nat>, id: string, i: int) {
    && 0 <= i < |recorded| && HasCall(recorded[i], turn, id) && forall j :: i < j < |recorded| ==> !HasCall(recorded[j], turn, id)
  }

  ghost predicate HasCall(r: Recorded, turn: Option<nat>, id: string) {
    turn == Some(r.turn) && exists k :: 0 <= k < |r.response.calls| && r.response.calls[k].id == id
  }

  /** A result belongs to the last response recorded for its turn and call, if there is any. */
  lemma {:induction false} ResponseMeans(recorded: seq<Recorded>, turn: Option<nat>, id: string, i: nat)
    ensures LastNaming(recorded, turn, id, i) ==> FindResponse(recorded, turn, id) == Some(recorded[i])
    ensures (forall j :: 0 <= j < |recorded| ==> !HasCall(recorded[j], turn, id)) ==> FindResponse(recorded, turn, id).None?
    decreases |recorded|
  {
    if recorded != [] {
      var n := |recorded| - 1;
      assert Names(recorded[n], turn, id) <==> HasCall(recorded[n], turn, id);
      if LastNaming(recorded, turn, id, i) && i < n {
        assert LastNaming(recorded[..n], turn, id, i);
      }
      ResponseMeans(recorded[..n], turn, id, i);
    }
  }

  /** A response is complete when each of its calls has a shown result under its turn. */
  lemma {:induction false} CompleteIff(r: Recorded, shown: seq<Observation>)
    ensures Complete(r, shown) <==>
            forall k :: 0 <= k < |r.response.calls| ==> IsAnswered(shown, Some(r.turn), r.response.calls[k].id)
  {
    forall k | 0 <= k < |r.response.calls|
      ensures FindResult(shown, Some(r.turn), r.response.calls[k].id).Some? <==> IsAnswered(shown, Some(r.turn), r.response.calls[k].id)
    {
      AnsweredIff(shown, Some(r.turn), r.response.calls[k].id);
    }
  }

  ghost predicate IsAnswered(shown: seq<Observation>, turn: Option<nat>, id: string) {
    exists i :: 0 <= i < |shown| && shown[i].turn == turn && shown[i].callId == id
  }

  lemma {:induction false} AnsweredIff(shown: seq<Observation>, turn: Option<nat>, id: string)
    ensures FindResult(shown, turn, id).Some? <==> IsAnswered(shown, turn, id)
  {
    var o := FindResult(shown, turn, id);
    if o.Some? {
      var i :| 0 <= i < |shown| && shown[i] == o.value;
    }
    if i :| 0 <= i < |shown| && shown[i].turn == turn && shown[i].callId == id {
      assert Answering(shown[i], turn, id);
    }
  }
}
