/**
 * The streamed chat on the wire: which lines carry data, which JSON objects are chunks, and which
 * sequences of chunks are a turn, each said of the text and the JSON fields themselves.  A stream
 * is read as a turn exactly when it is one in these terms.
 */
module StreamWire {
  import opened Results
  import opened Json
  import opened ChatStream

  // ---------------------------------------------------------------- lines

  /** A data line is "data:" with the value behind it, less one blank. */
  lemma {:induction false} DataLineIff(line: string, value: string)
    ensures DataValue(line) == Some(value) <==>
            line == "data: " + value || (line == "data:" + value && !(" " <= value))
    ensures DataValue(line).None? <==> !("data:" <= line)
  {
    assert ("data: " + value)[5..] == " " + value && (" " + value)[1..] == value;
    assert ("data:" + value)[5..] == value;
    if "data:" <= line {
      assert line == "data:" + line[5..];
      if " " <= line[5..] {
        assert line == "data: " + line[5..][1..];
      }
    }
  }

  /** The text of an event is its data lines with a line break between each two. */
  lemma {:induction false} JoinedText(lines: seq<string>)
    ensures lines != [] ==> JoinLines(lines) == Spliced(lines)
    ensures lines == [] ==> JoinLines(lines) == ""
    decreases |lines|
  {
    if |lines| > 1 {
      JoinedText(lines[..|lines| - 1]);
      SplicedSnoc(lines[..|lines| - 1], lines[|lines| - 1]);
      assert lines == lines[..|lines| - 1] + [lines[|lines| - 1]];
    }
  }

  function Spliced(lines: seq<string>): string
    requires lines != []
  {
    if |lines| == 1 then lines[0] else lines[0] + ['\n'] + Spliced(lines[1..])
  }

  lemma {:induction false} SplicedSnoc(lines: seq<string>, line: string)
    requires lines != []
    ensures Spliced(lines + [line]) == Spliced(lines) + "\n" + line
    decreases |lines|
  {
    if |lines| > 1 {
      SplicedSnoc(lines[1..], line);
      assert (lines + [line])[1..] == lines[1..] + [line];
      assert (lines + [line])[0] == lines[0];
    } else {
      assert (lines + [line])[1..] == [line];
    }
  }

  /** A response without an end line exposes nothing, however far it got. */
  lemma {:induction false} UnfinishedExposesNothing(lines: seq<string>, parse: string -> Option<Value>)
    requires "data:[DONE]" !in lines && "data: [DONE]" !in lines
    ensures Read(Events(lines, []), parse).None?
  {
    forall i | 0 <= i < |lines|
      ensures DataValue(lines[i]) != Some(DONE)
    {
      DataLineIff(lines[i], DONE);
      assert lines[i] in lines && "data:" + DONE == "data:[DONE]" && "data: " + DONE == "data: [DONE]";
    }
    CutStreamExposesNothing(lines, parse);
  }

  // ---------------------------------------------------------------- one chunk object

  predicate TextOrNull(v: Value, text: Option<string>) {
    v == if text.Some? then Str(text.value) else Null
  }

  // Empty names count as absent.
  predicate NameOrNull(v: Value, name: Option<string>) {
    if name.Some? then name.value != "" && v == Str(name.value) else v == Null || v == Str("")
  }

  predicate IsFragment(v: Value, f: Fragment) {
    && v.Obj? && Get(v.fields, "index") == Int(f.index)
    && NameOrNull(Get(v.fields, "id"), f.id) && NameOrNull(Get(v.fields, "type"), f.kind)
    && (Get(v.fields, "function") == Null ==> f.name == None && f.arguments == None)
    && (Get(v.fields, "function") != Null ==>
          var named := Get(v.fields, "function");
          && named.Obj? && NameOrNull(Get(named.fields, "name"), f.name)
          && TextOrNull(Get(named.fields, "arguments"), f.arguments))
  }

  predicate AreFragments(v: Value, fs: seq<Fragment>) {
    if v == Null then fs == []
    else v.List? && |v.items| == |fs| && forall i :: 0 <= i < |fs| ==> IsFragment(v.items[i], fs[i])
  }

  // A finish reason is text and comes with a usage object; null means that the turn goes on.
  predicate IsTerminal(reason: Value, usage: Value, terminal: Option<Terminal>) {
    if terminal.None? then reason == Null
    else reason == Str(terminal.value.reason) && usage == Obj(terminal.value.usage)
  }

  // The one choice of a chunk object.
  predicate HasChoice(v: Value, choice: map<string, Value>) {
    v.Obj? && Get(v.fields, "choices") == List([Obj(choice)])
  }

  predicate IsChoice(choice: map<string, Value>, usage: Value, c: Chunk) {
    var delta := Get(choice, "delta");
    && Get(choice, "index") in {Int(0), Bool(false), Float(0.0)} && delta.Obj?
    && TextOrNull(Get(delta.fields, "content"), c.content)
    && TextOrNull(Get(delta.fields, "reasoning_content"), c.reasoning)
    && AreFragments(Get(delta.fields, "tool_calls"), c.fragments)
    && IsTerminal(Get(choice, "finish_reason"), usage, c.terminal)
  }

  ghost predicate IsChunk(v: Value, c: Chunk) {
    && v.Obj? && (exists choice :: HasChoice(v, choice) && IsChoice(choice, Get(v.fields, "usage"), c))
    && c.model == if Get(v.fields, "model").Str? then Some(Get(v.fields, "model").s) else None
  }

  lemma {:induction false} NameIff(v: Value, name: Option<string>)
    ensures OptionalName(v) == Some(name) <==> NameOrNull(v, name)
  {
  }

  lemma {:induction false} FragmentIff(v: Value, f: Fragment)
    ensures DecodeFragment(v) == Some(f) <==> IsFragment(v, f)
  {
    if v.Obj? {
      NameIff(Get(v.fields, "id"), f.id);
      NameIff(Get(v.fields, "type"), f.kind);
      var named := Get(v.fields, "function");
      if named.Obj? {
        NameIff(Get(named.fields, "name"), f.name);
      }
    }
  }

  lemma {:induction false} FragmentsIff(vs: seq<Value>, fs: seq<Fragment>)
    ensures DecodeFragments(vs) == Some(fs) <==> |vs| == |fs| && forall i :: 0 <= i < |fs| ==> IsFragment(vs[i], fs[i])
    decreases |vs|
  {
    if vs != [] && fs != [] {
      FragmentIff(vs[0], fs[0]);
      FragmentsIff(vs[1..], fs[1..]);
      assert fs == [fs[0]] + fs[1..];
      if |vs| == |fs| {
        AllFragmentsCons(vs, fs);
      }
    }
  }

  lemma {:induction false} AllFragmentsCons(vs: seq<Value>, fs: seq<Fragment>)
    requires |vs| == |fs| && vs != []
    ensures (forall i :: 0 <= i < |fs| ==> IsFragment(vs[i], fs[i])) <==>
            IsFragment(vs[0], fs[0]) && forall i :: 0 <= i < |fs[1..]| ==> IsFragment(vs[1..][i], fs[1..][i])
  {
    var n := |fs[1..]|;
    assert forall i :: 0 <= i < n ==> vs[1..][i] == vs[i + 1] && fs[1..][i] == fs[i + 1];
    if IsFragment(vs[0], fs[0]) && forall i :: 0 <= i < n ==> IsFragment(vs[1..][i], fs[1..][i]) {
      forall i | 0 <= i < |fs|
        ensures IsFragment(vs[i], fs[i])
      {
        if i > 0 {
          assert IsFragment(vs[1..][i - 1], fs[1..][i - 1]);
        }
      }
    }
  }

  lemma {:induction false} TerminalIff(reason: Value, usage: Value, terminal: Option<Terminal>)
    ensures DecodeTerminal(reason, usage) == Some(terminal) <==> IsTerminal(reason, usage, terminal)
  {
  }

  /** A JSON value is read as this chunk exactly when it has the fields of it, checked one by one. */
  lemma {:induction false} DecodesIff(v: Value, c: Chunk)
    ensures DecodeChunk(v) == Some(c) <==> IsChunk(v, c)
  {
    if v.Obj? {
      var choices := Get(v.fields, "choices");
      if choices.List? && |choices.items| == 1 && choices.items[0].Obj? {
        var choice := choices.items[0].fields;
        assert choices.items == [Obj(choice)] && HasChoice(v, choice);
        ChoiceIff(v, choice, c);
      }
    }
  }

  lemma {:induction false} ChoiceIff(v: Value, choice: map<string, Value>, c: Chunk)
    requires HasChoice(v, choice)
    ensures DecodeChunk(v) == Some(c) <==>
            && IsChoice(choice, Get(v.fields, "usage"), c)
            && c.model == if Get(v.fields, "model").Str? then Some(Get(v.fields, "model").s) else None
  {
    var delta := Get(choice, "delta");
    assert Get(v.fields, "choices").items[0] == Obj(choice);
    TerminalIff(Get(choice, "finish_reason"), Get(v.fields, "usage"), c.terminal);
    if delta.Obj? {
      var calls := Get(delta.fields, "tool_calls");
      FragmentsIff(if calls.List? then calls.items else [], c.fragments);
    }
  }

  // ---------------------------------------------------------------- a whole turn

  function Flat(parts: seq<string>): string {
    if parts == [] then "" else parts[0] + Flat(parts[1..])
  }

  // The pieces that are there, one after the other; no text at all if none is.
  function Given(pieces: seq<Option<string>>): seq<string> {
    if pieces == [] then []
    else (if pieces[0].Some? then [pieces[0].value] else []) + Given(pieces[1..])
  }

  function TextOf(pieces: seq<Option<string>>): Option<string> {
    if Given(pieces) == [] then None else Some(Flat(Given(pieces)))
  }

  // The argument pieces of call i, first to last.
  function PiecesOf(fs: seq<Fragment>, i: nat): seq<Option<string>> {
    if fs == [] then []
    else (if fs[0].index == i then [fs[0].arguments] else []) + PiecesOf(fs[1..], i)
  }

  lemma {:induction false} FlatSnoc(parts: seq<string>, last: string)
    ensures Flat(parts + [last]) == Flat(parts) + last
  {
    if parts == [] {
      assert [last][1..] == [] && [] + [last] == [last];
    } else {
      FlatSnoc(parts[1..], last);
      assert (parts + [last])[1..] == parts[1..] + [last];
    }
  }

  lemma {:induction false} GivenSnoc(pieces: seq<Option<string>>, last: Option<string>)
    ensures Given(pieces + [last]) == Given(pieces) + if last.Some? then [last.value] else []
  {
    if pieces == [] {
      assert [last][1..] == [] && [] + [last] == [last];
    } else {
      GivenSnoc(pieces[1..], last);
      assert (pieces + [last])[1..] == pieces[1..] + [last];
    }
  }

  lemma {:induction false} ConcatIsFlat(parts: seq<string>)
    ensures Concat(parts) == Flat(parts)
    decreases |parts|
  {
    if parts != [] {
      var front, last := parts[..|parts| - 1], parts[|parts| - 1];
      ConcatIsFlat(front);
      FlatSnoc(front, last);
      assert parts == front + [last];
    }
  }

  lemma {:induction false} TextSnoc(pieces: seq<Option<string>>, last: Option<string>)
    ensures TextOf(pieces + [last]) == Glue(TextOf(pieces), last)
  {
    GivenSnoc(pieces, last);
    if last.Some? {
      FlatSnoc(Given(pieces), last.value);
      assert "" + last.value == last.value;
    } else {
      assert Given(pieces) + [] == Given(pieces);
    }
  }

  lemma {:induction false} GlueIsText(pieces: seq<Option<string>>)
    ensures GlueAll(pieces) == TextOf(pieces)
    decreases |pieces|
  {
    if pieces != [] {
      var front, last := pieces[..|pieces| - 1], pieces[|pieces| - 1];
      GlueIsText(front);
      TextSnoc(front, last);
      assert pieces == front + [last];
    }
  }

  lemma {:induction false} PiecesSnoc(fs: seq<Fragment>, f: Fragment, i: nat)
    ensures PiecesOf(fs + [f], i) == PiecesOf(fs, i) + if f.index == i then [f.arguments] else []
  {
    if fs == [] {
      assert [f][1..] == [] && [] + [f] == [f];
    } else {
      PiecesSnoc(fs[1..], f, i);
      assert (fs + [f])[1..] == fs[1..] + [f];
    }
  }

  lemma {:induction false} ArgumentsArePieces(fs: seq<Fragment>, i: nat)
    ensures ArgumentsOf(fs, i) == Given(PiecesOf(fs, i))
    decreases |fs|
  {
    if fs != [] {
      var front, f := fs[..|fs| - 1], fs[|fs| - 1];
      ArgumentsArePieces(front, i);
      PiecesSnoc(front, f, i);
      assert fs == front + [f];
      if f.index == i {
        GivenSnoc(PiecesOf(front, i), f.arguments);
      } else {
        assert PiecesOf(front, i) + [] == PiecesOf(front, i);
      }
    }
  }

  // A chunk that still says something.
  predicate SaysMore(c: Chunk) {
    c.content !in {None, Some("")} || c.reasoning !in {None, Some("")} || c.fragments != [] || c.terminal != None
  }

  ghost predicate SameWhenGiven(a: Option<string>, b: Option<string>) {
    a.Some? && b.Some? ==> a.value == b.value
  }

  // What the fragments of call i have to say for the call to stand.
  ghost predicate MakesCall(fs: seq<Fragment>, i: nat, call: Call) {
    && call.id != "" && call.name != "" && call.arguments == Flat(Given(PiecesOf(fs, i)))
    && (exists k :: 0 <= k < |fs| && fs[k].index == i && fs[k].id == Some(call.id))
    && (exists k :: 0 <= k < |fs| && fs[k].index == i && fs[k].kind == Some("function"))
    && (exists k :: 0 <= k < |fs| && fs[k].index == i && fs[k].name == Some(call.name))
  }

  // No two fragments of one call differ in what they name.
  ghost predicate Agreeing(fs: seq<Fragment>) {
    forall j, k :: 0 <= j < |fs| && 0 <= k < |fs| && fs[j].index == fs[k].index ==>
      SameWhenGiven(fs[j].id, fs[k].id) && SameWhenGiven(fs[j].kind, fs[k].kind) && SameWhenGiven(fs[j].name, fs[k].name)
  }

  ghost predicate CallsStand(fs: seq<Fragment>, calls: map<nat, Call>) {
    && (forall k :: 0 <= k < |fs| ==> fs[k].index in calls)
    && (forall i :: i in calls ==> MakesCall(fs, i, calls[i]))
  }

  ghost predicate FinishedAt(cs: seq<Chunk>, k: int, terminal: Terminal)
    requires 0 <= k < |cs|
  {
    && cs[k].terminal == Some(terminal) && (forall j :: 0 <= j < k ==> cs[j].terminal == None)
    && forall j :: k < j < |cs| ==> !SaysMore(cs[j])
  }

  // One chunk finishes the turn, and nothing is said after it.
  ghost predicate FinishesOnce(cs: seq<Chunk>, terminal: Terminal) {
    exists k :: 0 <= k < |cs| && FinishedAt(cs, k, terminal)
  }

  // The chunks make this turn: texts and arguments add up, the last model named counts, and the calls
  // stand in the order of their indices; a turn cut off by the length limit has none.
  ghost predicate MakeTurn(cs: seq<Chunk>, turn: Turn) {
    && turn.content == TextOf(Contents(cs)) && turn.reasoning == TextOf(Reasonings(cs)) && turn.model == LastModel(cs)
    && FinishesOnce(cs, turn.terminal) && Agreeing(AllFragments(cs))
    && if turn.terminal.reason == "length" then turn.calls == []
       else exists calls :: CallsStand(AllFragments(cs), calls) && InIndexOrder(calls, turn.calls)
  }

  ghost predicate InIndexOrder(calls: map<nat, Call>, listed: seq<Call>) {
    exists order: seq<nat> ::
      && (forall i :: i in order <==> i in calls) && (forall a, b :: 0 <= a < b < |order| ==> order[a] < order[b])
      && ListsThem(calls, order, listed)
  }

  ghost predicate ListsThem(calls: map<nat, Call>, order: seq<nat>, listed: seq<Call>) {
    |order| == |listed| && forall a :: 0 <= a < |order| ==> order[a] in calls && calls[order[a]] == listed[a]
  }

  // ---------------------------------------------------------------- reading is exactly this

  lemma {:induction false} AgreeingIff(fs: seq<Fragment>)
    ensures Consistent(fs) <==> Agreeing(fs)
  {
    if Consistent(fs) {
      forall j, k | 0 <= j < |fs| && 0 <= k < |fs| && fs[j].index == fs[k].index
        ensures SameWhenGiven(fs[j].id, fs[k].id) && SameWhenGiven(fs[j].kind, fs[k].kind) && SameWhenGiven(fs[j].name, fs[k].name)
      {
        assert Alike(fs[j], fs[k]);
      }
    }
    if Agreeing(fs) {
      forall j, k | 0 <= j < |fs| && 0 <= k < |fs| && fs[j].index == fs[k].index
        ensures Alike(fs[j], fs[k])
      {
        assert SameWhenGiven(fs[j].id, fs[k].id);
      }
    }
  }

  lemma {:induction false} MakesCallIff(fs: seq<Fragment>, i: nat, call: Call)
    requires forall k :: 0 <= k < |fs| && fs[k].index == i ==> Tells(fs[k], call)
    ensures CutsCall(fs, i, call) <==> MakesCall(fs, i, call)
  {
    ArgumentsArePieces(fs, i);
    ConcatIsFlat(ArgumentsOf(fs, i));
    if CutsCall(fs, i, call) {
      var a :| 0 <= a < |fs| && fs[a].index == i && fs[a].id.Some?;
      var b :| 0 <= b < |fs| && fs[b].index == i && fs[b].kind.Some?;
      var c :| 0 <= c < |fs| && fs[c].index == i && fs[c].name.Some?;
      assert fs[a].id == Some(call.id) && fs[b].kind == Some("function") && fs[c].name == Some(call.name);
    }
  }

  lemma {:induction false} AgreeingTells(fs: seq<Fragment>, k: int, call: Call)
    requires Agreeing(fs) && 0 <= k < |fs| && MakesCall(fs, fs[k].index, call)
    ensures Tells(fs[k], call)
  {
    var i := fs[k].index;
    var a :| 0 <= a < |fs| && fs[a].index == i && fs[a].id == Some(call.id);
    var b :| 0 <= b < |fs| && fs[b].index == i && fs[b].kind == Some("function");
    var c :| 0 <= c < |fs| && fs[c].index == i && fs[c].name == Some(call.name);
    assert SameWhenGiven(fs[k].id, fs[a].id) && SameWhenGiven(fs[k].kind, fs[b].kind) && SameWhenGiven(fs[k].name, fs[c].name);
  }

  lemma {:induction false} TellingAgrees(fs: seq<Fragment>, calls: map<nat, Call>)
    requires forall k :: 0 <= k < |fs| ==> fs[k].index in calls && Tells(fs[k], calls[fs[k].index])
    ensures Agreeing(fs)
  {
    forall j, k | 0 <= j < |fs| && 0 <= k < |fs| && fs[j].index == fs[k].index
      ensures SameWhenGiven(fs[j].id, fs[k].id) && SameWhenGiven(fs[j].kind, fs[k].kind) && SameWhenGiven(fs[j].name, fs[k].name)
    {
      assert Tells(fs[j], calls[fs[j].index]) && Tells(fs[k], calls[fs[k].index]);
    }
  }

  lemma {:induction false} CallsStandIff(fs: seq<Fragment>, calls: map<nat, Call>)
    ensures CutsCalls(fs, calls) <==> CallsStand(fs, calls) && Agreeing(fs)
  {
    if CutsCalls(fs, calls) {
      TellingAgrees(fs, calls);
      forall i | i in calls
        ensures MakesCall(fs, i, calls[i])
      {
        MakesCallIff(fs, i, calls[i]);
      }
    }
    if CallsStand(fs, calls) && Agreeing(fs) {
      StandingCallsAreCut(fs, calls);
    }
  }

  lemma {:induction false} StandingCallsAreCut(fs: seq<Fragment>, calls: map<nat, Call>)
    requires CallsStand(fs, calls) && Agreeing(fs)
    ensures CutsCalls(fs, calls)
  {
    forall k | 0 <= k < |fs|
      ensures fs[k].index in calls && Tells(fs[k], calls[fs[k].index])
    {
      AgreeingTells(fs, k, calls[fs[k].index]);
    }
    forall i | i in calls
      ensures CutsCall(fs, i, calls[i])
    {
      MakesCallIff(fs, i, calls[i]);
    }
  }

  lemma {:induction false} SaysMoreIff(c: Chunk)
    ensures SaysMore(c) <==> Speaks(c) || c.terminal.Some?
  {
  }

  lemma {:induction false} FinishesIff(cs: seq<Chunk>, terminal: Terminal)
    ensures FinishesOnce(cs, terminal) <==> EndsQuietly(cs) && exists k :: 0 <= k < |cs| && cs[k].terminal == Some(terminal)
  {
    forall k | 0 <= k < |cs|
      ensures SaysMore(cs[k]) <==> Speaks(cs[k]) || cs[k].terminal.Some?
    {
      SaysMoreIff(cs[k]);
    }
    if EndsQuietly(cs) {
      if k :| 0 <= k < |cs| && cs[k].terminal == Some(terminal) {
        QuietIsFinished(cs, k, terminal);
      }
    }
    if k :| 0 <= k < |cs| && FinishedAt(cs, k, terminal) {
      FinishedIsQuiet(cs, k, terminal);
    }
  }

  lemma {:induction false} QuietIsFinished(cs: seq<Chunk>, k: nat, terminal: Terminal)
    requires EndsQuietly(cs) && k < |cs| && cs[k].terminal == Some(terminal)
    ensures FinishedAt(cs, k, terminal)
  {
    forall j | k < j < |cs|
      ensures !SaysMore(cs[j])
    {
      SaysMoreIff(cs[j]);
    }
  }

  lemma {:induction false} FinishedIsQuiet(cs: seq<Chunk>, k: nat, terminal: Terminal)
    requires k < |cs| && FinishedAt(cs, k, terminal)
    ensures EndsQuietly(cs)
  {
    forall i, j | 0 <= i < j < |cs| && cs[i].terminal.Some?
      ensures cs[j].terminal.None? && !Speaks(cs[j])
    {
      assert i >= k;
      assert !SaysMore(cs[j]);
      SaysMoreIff(cs[j]);
    }
  }

  // An ascending listing is determined by what it lists.
  lemma {:induction false} OneAscendingListing(a: seq<nat>, b: seq<nat>)
    requires forall x :: x in a <==> x in b
    requires (forall i, j :: 0 <= i < j < |a| ==> a[i] < a[j]) && (forall i, j :: 0 <= i < j < |b| ==> b[i] < b[j])
    ensures a == b
    decreases |a|
  {
    if b != [] {
      assert b[0] in b;
    }
    if a != [] {
      assert a[0] in a;
      OneAscendingListing(a[1..], b[1..]) by {
        TailElements(a);
        TailElements(b);
      }
      assert a == [a[0]] + a[1..] && b == [b[0]] + b[1..];
    }
  }

  lemma {:induction false} TailElements(a: seq<nat>)
    requires a != [] && forall i, j :: 0 <= i < j < |a| ==> a[i] < a[j]
    ensures forall x :: x in a[1..] <==> x in a && x != a[0]
  {
    forall x | x in a && x != a[0]
      ensures x in a[1..]
    {
      var i :| 0 <= i < |a| && a[i] == x;
      assert a[1..][i - 1] == x;
    }
  }

  lemma {:induction false} ListedIff(calls: map<nat, Call>, listed: seq<Call>)
    ensures InIndexOrder(calls, listed) <==> ListsThem(calls, Ordered(calls.Keys), listed)
  {
    var sorted := Ordered(calls.Keys);
    OrderedElements(calls.Keys);
    if InIndexOrder(calls, listed) {
      var order: seq<nat> :|
        && (forall i :: i in order <==> i in calls) && (forall a, b :: 0 <= a < b < |order| ==> order[a] < order[b])
        && ListsThem(calls, order, listed);
      SameListing(calls, order, sorted);
    }
  }

  lemma {:induction false} SameListing(calls: map<nat, Call>, a: seq<nat>, b: seq<nat>)
    requires (forall i :: i in a <==> i in calls) && (forall i :: i in b <==> i in calls)
    requires (forall i, j :: 0 <= i < j < |a| ==> a[i] < a[j]) && (forall i, j :: 0 <= i < j < |b| ==> b[i] < b[j])
    ensures a == b
  {
    OneAscendingListing(a, b);
  }

  lemma {:induction false} SentIff(t: Whole, turn: Turn)
    ensures turn == Sent(t) <==>
            && turn.model == t.model && turn.terminal == t.terminal && turn.content == t.content && turn.reasoning == t.reasoning
            && if t.terminal.reason == "length" then turn.calls == [] else InIndexOrder(t.calls, turn.calls)
  {
    ListedIff(t.calls, turn.calls);
    if t.terminal.reason != "length" {
      SentCalls(t, turn.calls);
    }
  }

  lemma {:induction false} SentCalls(t: Whole, listed: seq<Call>)
    requires t.terminal.reason != "length"
    ensures Sent(t).calls == listed <==> ListsThem(t.calls, Ordered(t.calls.Keys), listed)
  {
    OrderedElements(t.calls.Keys);
    var order := Ordered(t.calls.Keys);
    assert forall a :: 0 <= a < |order| ==> order[a] in order;
    assert |Sent(t).calls| == |order| && forall a :: 0 <= a < |order| ==> Sent(t).calls[a] == t.calls[order[a]];
  }

  lemma {:induction false} MadeTurnIsCut(cs: seq<Chunk>, turn: Turn) returns (t: Whole)
    requires MakeTurn(cs, turn)
    ensures Cuts(cs, t) && turn == Sent(t)
  {
    GlueIsText(Contents(cs));
    GlueIsText(Reasonings(cs));
    FinishesIff(cs, turn.terminal);
    AgreeingIff(AllFragments(cs));
    var calls: map<nat, Call> := map[];
    if turn.terminal.reason != "length" {
      calls :| CallsStand(AllFragments(cs), calls) && InIndexOrder(calls, turn.calls);
      CallsStandIff(AllFragments(cs), calls);
    }
    t := Whole(turn.model, turn.terminal, turn.content, turn.reasoning, calls);
    SentIff(t, turn);
  }

  lemma {:induction false} CutMakesTurn(cs: seq<Chunk>, t: Whole)
    requires Cuts(cs, t)
    ensures MakeTurn(cs, Sent(t))
  {
    GlueIsText(Contents(cs));
    GlueIsText(Reasonings(cs));
    FinishesIff(cs, t.terminal);
    AgreeingIff(AllFragments(cs));
    SentIff(t, Sent(t));
    if t.terminal.reason != "length" {
      CallsStandIff(AllFragments(cs), t.calls);
    }
  }

  /** The chunks are accumulated to exactly the turn they make. */
  lemma {:induction false} AccumulatesIff(cs: seq<Chunk>, turn: Turn)
    ensures AddChunks(cs).Some? && TurnOf(AddChunks(cs).value) == Some(turn) <==> MakeTurn(cs, turn)
  {
    if MakeTurn(cs, turn) {
      var t := MadeTurnIsCut(cs, turn);
      ReadingInvertsCutting(cs, t);
    }
    if AddChunks(cs).Some? && TurnOf(AddChunks(cs).value) == Some(turn) {
      var t := OnlyCutsAreRead(cs);
      CutMakesTurn(cs, t);
    }
  }

  // The events before the end are these chunks.
  ghost predicate OnWire(events: seq<string>, parse: string -> Option<Value>, cs: seq<Chunk>) {
    && |cs| < |events| && events[|cs|] == "[DONE]"
    && forall j :: 0 <= j < |cs| ==> events[j] != "[DONE]" && parse(events[j]).Some? && IsChunk(parse(events[j]).value, cs[j])
  }

  lemma {:induction false} OnWireCons(events: seq<string>, parse: string -> Option<Value>, cs: seq<Chunk>)
    requires events != [] && events[0] != "[DONE]"
    ensures OnWire(events, parse, cs) <==>
            && cs != [] && parse(events[0]).Some? && IsChunk(parse(events[0]).value, cs[0])
            && OnWire(events[1..], parse, cs[1..])
  {
    if cs != [] && OnWire(events, parse, cs) {
      forall j | 0 <= j < |cs[1..]|
        ensures events[1..][j] != "[DONE]" && parse(events[1..][j]).Some? && IsChunk(parse(events[1..][j]).value, cs[1..][j])
      {
        assert events[1..][j] == events[j + 1] && cs[1..][j] == cs[j + 1];
      }
    }
    if cs != [] && parse(events[0]).Some? && IsChunk(parse(events[0]).value, cs[0]) && OnWire(events[1..], parse, cs[1..]) {
      forall j | 0 <= j < |cs|
        ensures events[j] != "[DONE]" && parse(events[j]).Some? && IsChunk(parse(events[j]).value, cs[j])
      {
        if j > 0 {
          assert events[1..][j - 1] == events[j] && cs[1..][j - 1] == cs[j];
        }
      }
    }
  }

  lemma {:induction false} ChunksIff(events: seq<string>, parse: string -> Option<Value>, cs: seq<Chunk>)
    ensures Chunks(events, parse) == Some(cs) <==> OnWire(events, parse, cs)
    decreases |events|
  {
    if events != [] && events[0] != "[DONE]" {
      OnWireCons(events, parse, cs);
      if cs != [] {
        ChunksIff(events[1..], parse, cs[1..]);
        assert cs == [cs[0]] + cs[1..];
        if parse(events[0]).Some? {
          DecodesIff(parse(events[0]).value, cs[0]);
        }
      }
    }
  }

  /**
   * A stream is read as a turn exactly when the events before its end are well-formed chunk objects
   * and these make the turn: everything else, a missing usage or a contradiction between two pieces,
   * exposes nothing.
   */
  lemma {:induction false} ReadIff(events: seq<string>, parse: string -> Option<Value>, turn: Turn)
    ensures Read(events, parse) == Some(turn) <==> exists cs :: OnWire(events, parse, cs) && MakeTurn(cs, turn)
  {
    if Read(events, parse) == Some(turn) {
      var cs := Chunks(events, parse).value;
      ChunksIff(events, parse, cs);
      AccumulatesIff(cs, turn);
    }
    if cs :| OnWire(events, parse, cs) && MakeTurn(cs, turn) {
      ChunksIff(events, parse, cs);
      AccumulatesIff(cs, turn);
    }
  }

  // The object of a chunk names this finish reason and carries this usage.
  ghost predicate Finishes(v: Value, terminal: Terminal) {
    && v.Obj? && Get(v.fields, "usage") == Obj(terminal.usage)
    && exists choice :: HasChoice(v, choice) && Get(choice, "finish_reason") == Str(terminal.reason)
  }

  /** A turn that is read was finished on the wire, by one object with its reason and its usage. */
  lemma {:induction false} ReadTurnIsFinished(events: seq<string>, parse: string -> Option<Value>) returns (k: nat)
    requires Read(events, parse).Some?
    ensures k < |events| && events[k] != "[DONE]" && "[DONE]" in events[k..] && "[DONE]" !in events[..k]
    ensures parse(events[k]).Some? && Finishes(parse(events[k]).value, Read(events, parse).value.terminal)
  {
    var turn := Read(events, parse).value;
    ReadIff(events, parse, turn);
    var cs :| OnWire(events, parse, cs) && MakeTurn(cs, turn);
    k :| k < |cs| && FinishedAt(cs, k, turn.terminal);
    assert events[k..][|cs| - k] == "[DONE]";
    ChunkFinishes(parse(events[k]).value, cs[k], turn.terminal);
  }

  lemma {:induction false} ChunkFinishes(v: Value, c: Chunk, terminal: Terminal)
    requires IsChunk(v, c) && c.terminal == Some(terminal)
    ensures Finishes(v, terminal)
  {
  }
}
