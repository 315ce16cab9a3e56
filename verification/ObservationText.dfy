/**
 * Bounding what a tool result puts into the model's context: the halving loop of
 * agents/tool_protocol.py and the read excerpt of generation/engineering/work_memory.py.
 */
module ObservationText {
  import opened Results
  import opened JsonText
  import Texts

  const MAX_TOOL_RESULT_CHARS: nat := 20_000
  const MAX_EVIDENCE_CHARS: nat := 12_000
  const MAX_EVIDENCE_JSON_CHARS: nat := 14_000
  const NOTICE: string := "工具结果已截断，必要时定向重读"

  // The fields of one tool result.
  datatype Observation = Observation(
    callId: string,
    turn: Option<nat>,
    name: string,
    ok: bool,
    errorCode: Option<string>,
    summary: string,
    data: Document,
    arguments: Document,
    truncated: bool)

  function Take(s: string, n: nat): (r: string)
    ensures r <= s && |r| <= n
  {
    if |s| <= n then s else s[..n]
  }

  function Optional(text: Option<string>): Document {
    if text.Some? then Text(text.value) else Nothing
  }

  function Length(text: Option<string>): nat {
    if text.Some? then |text.value| else 0
  }

  function TurnLength(o: Observation): nat {
    if o.turn.Some? then |Texts.Decimal(o.turn.value)| else 0
  }

  // The fields in the order in which the schema declares them.
  function Key(i: nat): (key: string)
    requires i < 9
    ensures |key| <= 12
  {
    match i
    case 0 => "tool_call_id"
    case 1 => "model_turn"
    case 2 => "name"
    case 3 => "ok"
    case 4 => "error_code"
    case 5 => "summary"
    case 6 => "data"
    case 7 => "arguments"
    case _ => "truncated"
  }

  function Field(o: Observation, i: nat): Document
    requires i < 9
  {
    match i
    case 0 => Text(o.callId)
    case 1 => if o.turn.Some? then Number(Texts.Decimal(o.turn.value)) else Nothing
    case 2 => Text(o.name)
    case 3 => Flag(o.ok)
    case 4 => Optional(o.errorCode)
    case 5 => Text(o.summary)
    case 6 => o.data
    case 7 => o.arguments
    case _ => Flag(o.truncated)
  }

  function Payload(o: Observation): (d: Document)
    ensures d.Object? && |d.members| == 9
    ensures forall i :: 0 <= i < 9 ==> d.members[i] == (Key(i), Field(o, i))
  {
    Object(seq(9, i requires 0 <= i < 9 => (Key(i), Field(o, i))))
  }

  function Serialized(o: Observation): string {
    Dumps(Payload(o))
  }

  function Excerpt(text: string): Document {
    Object([("excerpt", Text(text)), ("notice", Text(NOTICE))])
  }

  // The result with an excerpt of its own data; id, turn, name, outcome and error code stay.
  function Trimmed(o: Observation, excerpt: string): Observation {
    o.(summary := Take(o.summary, 1000), data := Excerpt(excerpt), arguments := Object([]), truncated := true)
  }

  // The length that is left when nothing of the data is quoted.
  function FixedSize(o: Observation): nat {
    |Serialized(Trimmed(o, ""))|
  }

  function Limit(halvings: nat): nat {
    if halvings == 0 then MAX_TOOL_RESULT_CHARS / 2 else Limit(halvings - 1) / 2
  }

  // What the n-th round of the loop produces.
  function Attempt(o: Observation, halvings: nat): string {
    Serialized(Trimmed(o, Take(Dumps(o.data), Limit(halvings))))
  }

  predicate Fits(text: string) {
    |text| <= MAX_TOOL_RESULT_CHARS
  }

  // ---------------------------------------------------------------- the size of an attempt

  lemma {:induction false} FourteenHalvings()
    ensures Limit(14) == 0
  {
    assert Limit(4) == 625;
    assert Limit(8) == 39;
    assert Limit(12) == 2;
  }

  lemma {:induction false} PayloadWithData(o: Observation, data: Document)
    ensures Payload(o.(data := data)) == Object(Payload(o).members[6 := ("data", data)])
    ensures Payload(o).members[6] == ("data", o.data)
  {
  }

  /** Quoting an excerpt costs exactly its escaped length. */
  lemma {:induction false} TrimmedSize(o: Observation, excerpt: string)
    ensures |Serialized(Trimmed(o, excerpt))| == FixedSize(o) + |Escape(excerpt)|
  {
    var empty, full := Excerpt(""), Excerpt(excerpt);
    ExcerptCost(excerpt);
    var bare := Trimmed(o, "");
    PayloadWithData(bare, full);
    assert Trimmed(o, excerpt) == bare.(data := full);
    SwapData(Payload(bare), full);
  }

  lemma {:induction false} ExcerptCost(excerpt: string)
    ensures |Dumps(Excerpt(excerpt))| == |Dumps(Excerpt(""))| + |Escape(excerpt)|
  {
    var empty := Excerpt("");
    assert Excerpt(excerpt) == Object(empty.members[0 := ("excerpt", Text(excerpt))]);
    ReplacedMember(empty, 0, Text(excerpt), 0);
  }

  lemma {:induction false} SwapData(d: Document, v: Document)
    requires d.Object? && |d.members| == 9
    ensures |Dumps(Object(d.members[6 := (d.members[6].0, v)]))| == |Dumps(d)| + |Dumps(v)| - |Dumps(d.members[6].1)|
  {
    ReplacedMember(d, 6, v, 0);
  }

  /** Each escaped character is at most six, so the excerpt costs at most six times the limit. */
  lemma {:induction false} AttemptSize(o: Observation, n: nat)
    ensures FixedSize(o) <= |Attempt(o, n)| <= FixedSize(o) + 6 * Limit(n)
    ensures Limit(n) == 0 ==> |Attempt(o, n)| == FixedSize(o)
  {
    TrimmedSize(o, Take(Dumps(o.data), Limit(n)));
  }

  /** The loop ends exactly when the result fits without any of its data. */
  lemma {:induction false} LoopEndsIffFixedPartFits(o: Observation)
    ensures (exists n :: Fits(Attempt(o, n))) <==> FixedSize(o) <= MAX_TOOL_RESULT_CHARS
    ensures FixedSize(o) <= MAX_TOOL_RESULT_CHARS ==> Fits(Attempt(o, 14))
  {
    FourteenHalvings();
    AttemptSize(o, 14);
    forall n | Fits(Attempt(o, n))
      ensures FixedSize(o) <= MAX_TOOL_RESULT_CHARS
    {
      AttemptSize(o, n);
    }
  }

  lemma {:induction false} FieldFits(d: Document, k: nat)
    requires d.Object? && k < |d.members|
    ensures |Dumps(d.members[k].1)| <= |Dumps(d)|
  {
    MemberFits(d, k, 0);
  }

  lemma {:induction false} ErrorCodeIsKept(o: Observation)
    ensures Length(o.errorCode) <= |Serialized(o)|
  {
    FieldFits(Payload(o), 4);
    assert Payload(o).members[4].1 == Field(o, 4);
  }

  // An error code alone can keep the loop from ending: nothing bounds its length.
  lemma {:induction false} LongErrorCodeNeverFits(o: Observation, n: nat)
    requires Length(o.errorCode) > MAX_TOOL_RESULT_CHARS
    ensures !Fits(Attempt(o, n))
  {
    ErrorCodeIsKept(Trimmed(o, Take(Dumps(o.data), Limit(n))));
  }

  function Cost(m: (string, Document)): nat {
    6 + 6 * |m.0| + |Dumps(m.1)|
  }

  lemma {:induction false} DumpStep(d: Document, i: nat, cost: nat)
    requires d.Object? && i < |d.members| && Cost(d.members[i]) <= cost
    ensures |DumpMembers(d, i)| <= cost + |DumpMembers(d, i + 1)|
  {
  }

  lemma {:induction false} NineMembers(d: Document, costs: seq<nat>)
    requires d.Object? && |d.members| == |costs| == 9
    requires forall i :: 0 <= i < 9 ==> Cost(d.members[i]) <= costs[i]
    ensures |Dumps(d)| <= 2 + costs[0] + costs[1] + costs[2] + costs[3] + costs[4] + costs[5] + costs[6] + costs[7] + costs[8]
  {
    DumpStep(d, 8, costs[8]);
    DumpStep(d, 7, costs[7]);
    DumpStep(d, 6, costs[6]);
    DumpStep(d, 5, costs[5]);
    DumpStep(d, 4, costs[4]);
    DumpStep(d, 3, costs[3]);
    DumpStep(d, 2, costs[2]);
    DumpStep(d, 1, costs[1]);
    DumpStep(d, 0, costs[0]);
  }

  lemma {:induction false} EmptyExcerptCost()
    ensures |Dumps(Excerpt(""))| <= 250
  {
    var d := Excerpt("");
    DumpStep(d, 0, 50);
    DumpStep(d, 1, 6 + 36 + 2 + 6 * |NOTICE|);
  }

  // What the fields of a result without data cost.
  function FieldCost(o: Observation, i: nat): nat
    requires i < 9
  {
    match i
    case 0 => 6 * |o.callId|
    case 1 => TurnLength(o)
    case 2 => 6 * |o.name|
    case 4 => 6 * Length(o.errorCode)
    case 5 => 6_000
    case 6 => 250
    case _ => 0
  }

  lemma {:induction false} FieldSize(o: Observation, i: nat)
    requires i < 9 && |o.summary| <= 1000 && o.data == Excerpt("") && o.arguments == Object([])
    ensures |Dumps(Field(o, i))| <= 5 + FieldCost(o, i)
  {
    if i == 6 {
      EmptyExcerptCost();
    }
  }

  /** What the fixed part can cost: six characters for each of its own, and a frame. */
  lemma {:induction false} FixedSizeBound(o: Observation)
    ensures FixedSize(o) <= 7_100 + 6 * (|o.callId| + |o.name| + Length(o.errorCode)) + TurnLength(o)
  {
    var bare := Trimmed(o, "");
    var d := Payload(bare);
    var costs := seq(9, i requires 0 <= i < 9 => 83 + FieldCost(bare, i));
    forall i | 0 <= i < 9
      ensures Cost(d.members[i]) <= costs[i]
    {
      FieldSize(bare, i);
      assert d.members[i] == (Key(i), Field(bare, i));
    }
    NineMembers(d, costs);
  }

  /** Within the schema's own limits for id and name, a bounded error code and turn always fit. */
  lemma {:induction false} BoundedResultsFit(o: Observation)
    requires |o.callId| <= 100 && |o.name| <= 64
    requires o.errorCode.Some? ==> |o.errorCode.value| <= 1900
    requires TurnLength(o) <= 10
    ensures FixedSize(o) <= MAX_TOOL_RESULT_CHARS && Fits(Attempt(o, 14))
  {
    FixedSizeBound(o);
    LoopEndsIffFixedPartFits(o);
  }

  // ---------------------------------------------------------------- the loop

  // The text of the observation itself, or of it with the longest tried excerpt that fits.
  ghost predicate IsBounded(o: Observation, text: string, halvings: nat) {
    && Fits(text)
    && (Fits(Serialized(o)) ==> text == Serialized(o))
    && (!Fits(Serialized(o)) ==> text == Attempt(o, halvings) && forall n :: 0 <= n < halvings ==> !Fits(Attempt(o, n)))
  }

  /** Bounds one tool result.  It asks for exactly the inputs on which the loop ends. */
  method ToolObservationJson(o: Observation) returns (text: string)
    requires Fits(Serialized(o)) || FixedSize(o) <= MAX_TOOL_RESULT_CHARS
    ensures exists halvings :: IsBounded(o, text, halvings)
  {
    ghost var halvings := 0;
    text := Serialized(o);
    if Fits(text) {
      assert IsBounded(o, text, halvings);
      return;
    }
    var excerpt := Dumps(o.data);
    var limit := MAX_TOOL_RESULT_CHARS / 2;
    text := Serialized(Trimmed(o, Take(excerpt, limit)));
    while !Fits(text)
      invariant limit == Limit(halvings) && text == Attempt(o, halvings)
      invariant forall n :: 0 <= n < halvings ==> !Fits(Attempt(o, n))
      decreases limit
    {
      AttemptSize(o, halvings);
      limit := limit / 2;
      halvings := halvings + 1;
      text := Serialized(Trimmed(o, Take(excerpt, limit)));
    }
    assert IsBounded(o, text, halvings);
  }

  predicate PlainObservation(o: Observation) {
    && Plain(o.data) && Plain(o.arguments)
    && (o.turn.Some? ==> Plain(Number(Texts.Decimal(o.turn.value))))
  }

  // The reader of the text still sees which call it answers and how that call ended.
  predicate SameIdentity(o: Observation, shown: Observation) {
    && shown.callId == o.callId && shown.turn == o.turn && shown.name == o.name
    && shown.ok == o.ok && shown.errorCode == o.errorCode
  }

  lemma {:induction false} DecimalIsPlain(n: nat)
    ensures Plain(Number(Texts.Decimal(n)))
  {
    if n >= 10 {
      DecimalIsPlain(n / 10);
    }
  }

  lemma {:induction false} PayloadIsPlain(o: Observation)
    requires PlainObservation(o)
    ensures Plain(Payload(o))
  {
    var d := Payload(o);
    forall i | 0 <= i < |d.members|
      ensures Plain(d.members[i].1)
    {
      if i == 1 {
        if o.turn.Some? {
          DecimalIsPlain(o.turn.value);
        }
      } else if i < 6 || i == 8 {
        assert d.members[i].1.Text? || d.members[i].1.Flag? || d.members[i].1.Nothing?;
      }
    }
  }

  /**
   * The bounded text never cuts through JSON: it reads back as one whole observation with the
   * original's identity and outcome.  A shortened one says so and quotes a prefix of the data.
   */
  lemma {:induction false} BoundedTextIsWholeJson(o: Observation, text: string, halvings: nat) returns (shown: Observation)
    requires PlainObservation(o) && IsBounded(o, text, halvings)
    ensures Loads(text) == Some(Payload(shown)) && SameIdentity(o, shown)
    ensures shown == o || (shown.truncated && exists e :: e <= Dumps(o.data) && shown.data == Excerpt(e))
  {
    if Fits(Serialized(o)) {
      shown := o;
    } else {
      var e := Take(Dumps(o.data), Limit(halvings));
      shown := Trimmed(o, e);
      assert e <= Dumps(o.data) && shown.data == Excerpt(e);
      assert Plain(Excerpt(e));
    }
    PayloadIsPlain(shown);
    LoadsInvertsDumps(Payload(shown));
  }

  // ---------------------------------------------------------------- the read excerpt

  predicate ExcerptFits(body: string, n: nat)
    requires n <= |body|
  {
    |Quoted(body[..n])| <= MAX_EVIDENCE_JSON_CHARS
  }

  // The longest prefix that is short enough both as text and as JSON.
  ghost predicate IsVisibleLimit(body: string, limit: nat) {
    && limit <= |body| && limit <= MAX_EVIDENCE_CHARS && ExcerptFits(body, limit)
    && forall n :: limit < n <= |body| && n <= MAX_EVIDENCE_CHARS ==> !ExcerptFits(body, n)
  }

  lemma {:induction false} ShorterFits(body: string, i: nat, j: nat)
    requires i <= j <= |body| && ExcerptFits(body, j)
    ensures ExcerptFits(body, i)
  {
    LongerPrefixIsLonger(body, i, j);
  }

  /** The bisection of visible_read_fragment finds the longest visible prefix. */
  method VisibleLimit(body: string) returns (limit: nat)
    ensures IsVisibleLimit(body, limit)
  {
    limit := if |body| < MAX_EVIDENCE_CHARS then |body| else MAX_EVIDENCE_CHARS;
    if !ExcerptFits(body, limit) {
      var low, high := 0, limit;
      while low < high
        invariant 0 <= low <= high <= limit
        invariant ExcerptFits(body, low)
        invariant forall n :: high < n <= limit ==> !ExcerptFits(body, n)
      {
        var middle := (low + high + 1) / 2;
        if ExcerptFits(body, middle) {
          low := middle;
        } else {
          forall n | middle <= n <= limit
            ensures !ExcerptFits(body, n)
          {
            if ExcerptFits(body, n) {
              ShorterFits(body, middle, n);
            }
          }
          high := middle - 1;
        }
      }
      limit := low;
    }
  }
}
