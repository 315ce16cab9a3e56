/**
 * The streamed chat reader of core/llm.py: server-sent events to one complete chat turn.
 *
 * SseData and ReadStreamedChat are the two loops.  The theorems say that reading inverts every way
 * of cutting a turn into deltas, whatever the interleaving, and that nothing is exposed early.
 */
module ChatStream {
  import opened Results
  import opened Json
  import JsonText
  import JsonValues

  const DONE: string := "[DONE]"

  // ---------------------------------------------------------------- the line layer

  function DataValue(line: string): Option<string> {
    if "data:" <= line then
      var value := line[5..];
      Some(if " " <= value then value[1..] else value)
    else None
  }

  function JoinLines(lines: seq<string>): string {
    if lines == [] then "" else if |lines| == 1 then lines[0] else JoinLines(lines[..|lines| - 1]) + "\n" + lines[|lines| - 1]
  }

  function Pending(open: seq<string>): seq<string> {
    if open == [] then [] else [JoinLines(open)]
  }

  // The events of the remaining lines while `open` holds the data lines of an unfinished event.
  function Events(lines: seq<string>, open: seq<string>): seq<string>
    decreases |lines|
  {
    if lines == [] then Pending(open)
    else
      var value := DataValue(lines[0]);
      if value == Some(DONE) then Pending(open) + [DONE]
      else if value.Some? then Events(lines[1..], open + [value.value])
      else if lines[0] == "" then Pending(open) + Events(lines[1..], [])
      else Events(lines[1..], open)
  }

  method SseData(lines: seq<string>) returns (events: seq<string>)
    ensures events == Events(lines, [])
  {
    events := [];
    var open: seq<string> := [];
    for i := 0 to |lines|
      invariant Events(lines, []) == events + Events(lines[i..], open)
    {
      var line := lines[i];
      assert lines[i..][0] == line && lines[i..][1..] == lines[i + 1..];
      var value := DataValue(line);
      if value.Some? {
        if value.value == DONE {
          if open != [] {
            events := events + [JoinLines(open)];
          }
          events := events + [DONE];
          return;
        }
        open := open + [value.value];
      } else if line == "" && open != [] {
        events := events + [JoinLines(open)];
        open := [];
      }
    }
    if open != [] {
      events := events + [JoinLines(open)];
    }
  }

  // ---------------------------------------------------------------- decoding one chunk

  datatype Fragment = Fragment(
    index: nat, id: Option<string>, kind: Option<string>, name: Option<string>, arguments: Option<string>)

  datatype Terminal = Terminal(reason: string, usage: map<string, Value>)

  datatype Chunk = Chunk(
    model: Option<string>,
    content: Option<string>,
    reasoning: Option<string>,
    fragments: seq<Fragment>,
    terminal: Option<Terminal>)

  // A field that must be text when it is there.
  function OptionalText(v: Value): Option<Option<string>> {
    match v
    case Null => Some(None)
    case Str(s) => Some(Some(s))
    case _ => None
  }

  // The same, with empty text reading as absent.
  function OptionalName(v: Value): Option<Option<string>> {
    if v == Str("") then Some(None) else OptionalText(v)
  }

  function DecodeFragment(v: Value): Option<Fragment> {
    if !v.Obj? then None
    else
      var index := Get(v.fields, "index");
      var named := if Get(v.fields, "function").Null? then Obj(map[]) else Get(v.fields, "function");
      if !index.Int? || index.n < 0 || !named.Obj? then None
      else
        var id, kind := OptionalName(Get(v.fields, "id")), OptionalName(Get(v.fields, "type"));
        var name, arguments := OptionalName(Get(named.fields, "name")), OptionalText(Get(named.fields, "arguments"));
        if id.None? || kind.None? || name.None? || arguments.None? then None
        else Some(Fragment(index.n, id.value, kind.value, name.value, arguments.value))
  }

  function DecodeFragments(vs: seq<Value>): Option<seq<Fragment>> {
    if vs == [] then Some([])
    else
      var first, rest := DecodeFragment(vs[0]), DecodeFragments(vs[1..]);
      if first.None? || rest.None? then None else Some([first.value] + rest.value)
  }

  function DecodeTerminal(reason: Value, usage: Value): Option<Option<Terminal>> {
    if reason.Null? then Some(None)
    else if reason.Str? && usage.Obj? then Some(Some(Terminal(reason.s, usage.fields)))
    else None
  }

  function DecodeChunk(v: Value): Option<Chunk> {
    if !v.Obj? then None
    else
      var choices := Get(v.fields, "choices");
      if !choices.List? || |choices.items| != 1 || !choices.items[0].Obj? then None
      else
        var choice := choices.items[0].fields;
        var delta := Get(choice, "delta");
        if !EqualsZero(Get(choice, "index")) || !delta.Obj? then None
        else
          var content, reasoning := OptionalText(Get(delta.fields, "content")), OptionalText(Get(delta.fields, "reasoning_content"));
          var calls := if Get(delta.fields, "tool_calls").Null? then List([]) else Get(delta.fields, "tool_calls");
          var terminal := DecodeTerminal(Get(choice, "finish_reason"), Get(v.fields, "usage"));
          if content.None? || reasoning.None? || !calls.List? || terminal.None? then None
          else
            var fragments := DecodeFragments(calls.items);
            if fragments.None? then None
            else
              var model := Get(v.fields, "model");
              Some(Chunk(if model.Str? then Some(model.s) else None, content.value, reasoning.value,
                         fragments.value, terminal.value))
  }

  // ---------------------------------------------------------------- accumulating chunks

  datatype Partial = Partial(id: Option<string>, kind: Option<string>, name: Option<string>, arguments: seq<string>)

  datatype Reader = Reader(
    model: Option<string>,
    content: Option<string>,
    reasoning: Option<string>,
    calls: map<nat, Partial>,
    terminal: Option<Terminal>)

  const EMPTY := Reader(None, None, None, map[], None)

  const UNKNOWN := Partial(None, None, None, [])

  // Text so far and the next piece; None means that no piece has come yet.
  function Glue(text: Option<string>, piece: Option<string>): Option<string> {
    if piece.None? then text else if text.None? then piece else Some(text.value + piece.value)
  }

  predicate Agrees(known: Option<string>, given: Option<string>) {
    known.None? || given.None? || known == given
  }

  function Either(known: Option<string>, given: Option<string>): Option<string> {
    if given.Some? then given else known
  }

  function At(calls: map<nat, Partial>, index: nat): Partial {
    if index in calls then calls[index] else UNKNOWN
  }

  predicate FragmentFits(call: Partial, f: Fragment) {
    Agrees(call.id, f.id) && Agrees(call.kind, f.kind) && Agrees(call.name, f.name)
  }

  function Extend(call: Partial, f: Fragment): Partial {
    Partial(Either(call.id, f.id), Either(call.kind, f.kind), Either(call.name, f.name),
            call.arguments + if f.arguments.Some? then [f.arguments.value] else [])
  }

  function AddFragments(calls: map<nat, Partial>, fs: seq<Fragment>): Option<map<nat, Partial>>
    decreases |fs|
  {
    if fs == [] then Some(calls)
    else
      var n := |fs| - 1;
      var before := AddFragments(calls, fs[..n]);
      if before.None? || !FragmentFits(At(before.value, fs[n].index), fs[n]) then None
      else Some(before.value[fs[n].index := Extend(At(before.value, fs[n].index), fs[n])])
  }

  predicate Speaks(c: Chunk) {
    (c.content.Some? && c.content.value != "") || (c.reasoning.Some? && c.reasoning.value != "") || c.fragments != []
  }

  function AddChunk(r: Reader, c: Chunk): Option<Reader> {
    if r.terminal.Some? && (Speaks(c) || c.terminal.Some?) then None
    else
      var calls := AddFragments(r.calls, c.fragments);
      if calls.None? then None
      else
        Some(Reader(if c.model.Some? then c.model else r.model, Glue(r.content, c.content), Glue(r.reasoning, c.reasoning),
                    calls.value, if c.terminal.Some? then c.terminal else r.terminal))
  }

  function AddChunks(cs: seq<Chunk>): Option<Reader> {
    if cs == [] then Some(EMPTY)
    else
      var before := AddChunks(cs[..|cs| - 1]);
      if before.None? then None else AddChunk(before.value, cs[|cs| - 1])
  }

  datatype Call = Call(id: string, name: string, arguments: string)

  datatype Turn = Turn(
    model: Option<string>,
    terminal: Terminal,
    content: Option<string>,
    reasoning: Option<string>,
    calls: seq<Call>)

  function Concat(parts: seq<string>): string {
    if parts == [] then "" else Concat(parts[..|parts| - 1]) + parts[|parts| - 1]
  }

  predicate Complete(p: Partial) {
    p.id.Some? && p.id.value != "" && p.kind == Some("function") && p.name.Some? && p.name.value != ""
  }

  function CallFrom(p: Partial): Call
    requires Complete(p)
  {
    Call(p.id.value, p.name.value, Concat(p.arguments))
  }

  // ---- ascending indices

  ghost predicate IsLeast(s: set<nat>, m: nat) {
    m in s && forall x :: x in s ==> m <= x
  }

  lemma {:induction false} HasLeast(s: set<nat>) returns (m: nat)
    requires s != {}
    ensures IsLeast(s, m)
    decreases |s|
  {
    m :| m in s;
    if x :| x in s && x < m {
      var rest := s - {m};
      m := HasLeast(rest);
      assert forall y :: y in s ==> y in rest || y > x;
    }
  }

  ghost function Least(s: set<nat>): (m: nat)
    requires s != {}
    ensures IsLeast(s, m)
  {
    assert exists m :: IsLeast(s, m) by { var m := HasLeast(s); }
    var m :| IsLeast(s, m);
    m
  }

  ghost function Ordered(s: set<nat>): seq<nat> {
    if s == {} then [] else [Least(s)] + Ordered(s - {Least(s)})
  }

  ghost function InOrder(calls: map<nat, Partial>, indices: seq<nat>): (r: seq<Call>)
    requires forall i :: 0 <= i < |indices| ==> indices[i] in calls && Complete(calls[indices[i]])
    ensures |r| == |indices| && forall i :: 0 <= i < |indices| ==> r[i] == CallFrom(calls[indices[i]])
  {
    seq(|indices|, i requires 0 <= i < |indices| => CallFrom(calls[indices[i]]))
  }

  lemma {:induction false} OrderedElements(s: set<nat>)
    ensures forall x :: x in Ordered(s) <==> x in s
    ensures forall i, j :: 0 <= i < j < |Ordered(s)| ==> Ordered(s)[i] < Ordered(s)[j]
  {
    if s != {} {
      var m := Least(s);
      var rest := Ordered(s - {m});
      OrderedElements(s - {m});
      forall x
        ensures x in Ordered(s) <==> x in s
      {
        assert x in Ordered(s) <==> x == m || x in rest;
      }
      forall i | 0 <= i < |rest|
        ensures m < rest[i]
      {
        assert rest[i] in rest;
      }
    }
  }

  // The turn that a finished reader stands for; a turn cut by the length limit has no calls.
  ghost function TurnOf(r: Reader): Option<Turn> {
    if r.terminal.None? then None
    else if r.terminal.value.reason == "length" then Some(Turn(r.model, r.terminal.value, r.content, r.reasoning, []))
    else if exists i :: i in r.calls && !Complete(r.calls[i]) then None
    else
      OrderedElements(r.calls.Keys);
      Some(Turn(r.model, r.terminal.value, r.content, r.reasoning, InOrder(r.calls, Ordered(r.calls.Keys))))
  }

  // The chunks that stand before the first [DONE] event, if there is one and all of them decode.
  function Chunks(events: seq<string>, parse: string -> Option<Value>): Option<seq<Chunk>> {
    if events == [] then None
    else if events[0] == DONE then Some([])
    else
      var v := parse(events[0]);
      var c := if v.None? then None else DecodeChunk(v.value);
      var rest := Chunks(events[1..], parse);
      if c.None? then None else Ahead([c.value], rest)
  }

  // The chunks read so far and what the remaining events decode to.
  function Ahead(done: seq<Chunk>, rest: Option<seq<Chunk>>): Option<seq<Chunk>> {
    if rest.None? then None else Some(done + rest.value)
  }

  ghost function Read(events: seq<string>, parse: string -> Option<Value>): Option<Turn> {
    var cs := Chunks(events, parse);
    var r := if cs.None? then None else AddChunks(cs.value);
    if r.None? then None else TurnOf(r.value)
  }

  // ---------------------------------------------------------------- the reader as a loop

  lemma {:induction false} FailedPrefix(cs: seq<Chunk>, more: seq<Chunk>)
    requires AddChunks(cs).None?
    ensures AddChunks(cs + more).None?
    decreases |more|
  {
    if more == [] {
      assert cs + more == cs;
    } else {
      var n := |more| - 1;
      assert (cs + more)[..|cs + more| - 1] == cs + more[..n];
      FailedPrefix(cs, more[..n]);
    }
  }

  lemma {:induction false} AheadOfNothing(rest: Option<seq<Chunk>>)
    ensures Ahead([], rest) == rest
  {
    if rest.Some? {
      assert [] + rest.value == rest.value;
    }
  }

  lemma {:induction false} AheadFails(done: seq<Chunk>, rest: Option<seq<Chunk>>)
    requires AddChunks(done).None?
    ensures var cs := Ahead(done, rest); cs.None? || AddChunks(cs.value).None?
  {
    if rest.Some? {
      FailedPrefix(done, rest.value);
    }
  }

  lemma {:induction false} AheadNext(done: seq<Chunk>, c: Chunk, rest: Option<seq<Chunk>>)
    ensures Ahead(done, Ahead([c], rest)) == Ahead(done + [c], rest)
  {
    if rest.Some? {
      assert done + ([c] + rest.value) == done + [c] + rest.value;
    }
  }

  lemma {:induction false} AddChunksSnoc(done: seq<Chunk>, c: Chunk)
    ensures AddChunks(done + [c]) == if AddChunks(done).None? then None else AddChunk(AddChunks(done).value, c)
  {
    assert (done + [c])[..|done|] == done;
  }

  // The reader has taken in the first i events, none of them [DONE].
  ghost predicate Reading(events: seq<string>, parse: string -> Option<Value>, i: nat, reader: Reader, done: seq<Chunk>) {
    && i <= |events| && AddChunks(done) == Some(reader)
    && Chunks(events, parse) == Ahead(done, Chunks(events[i..], parse))
  }

  function DecodeEvent(event: string, parse: string -> Option<Value>): Option<Chunk> {
    var v := parse(event);
    if v.None? then None else DecodeChunk(v.value)
  }

  lemma {:induction false} ReadingStarts(events: seq<string>, parse: string -> Option<Value>)
    ensures Reading(events, parse, 0, EMPTY, [])
  {
    assert events[0..] == events;
    AheadOfNothing(Chunks(events, parse));
  }

  lemma {:induction false} ReadingStops(
      events: seq<string>, parse: string -> Option<Value>, i: nat, reader: Reader, done: seq<Chunk>)
    requires Reading(events, parse, i, reader, done)
    ensures i < |events| && events[i] == DONE ==> Read(events, parse) == TurnOf(reader)
    ensures i == |events| ==> Read(events, parse).None?
    ensures i < |events| && events[i] != DONE && DecodeEvent(events[i], parse).None? ==> Read(events, parse).None?
  {
    if i < |events| && events[i] == DONE {
      assert Chunks(events[i..], parse) == Some([]);
      assert done + [] == done;
    }
  }

  lemma {:induction false} ReadingGoesOn(
      events: seq<string>, parse: string -> Option<Value>, i: nat, reader: Reader, done: seq<Chunk>, c: Chunk)
    requires Reading(events, parse, i, reader, done) && i < |events| && events[i] != DONE
    requires DecodeEvent(events[i], parse) == Some(c)
    ensures AddChunk(reader, c).Some? ==> Reading(events, parse, i + 1, AddChunk(reader, c).value, done + [c])
    ensures AddChunk(reader, c).None? ==> Read(events, parse).None?
  {
    assert events[i..][1..] == events[i + 1..];
    var rest := Chunks(events[i + 1..], parse);
    assert Chunks(events[i..], parse) == Ahead([c], rest);
    AheadNext(done, c, rest);
    AddChunksSnoc(done, c);
    if AddChunk(reader, c).None? {
      AheadFails(done + [c], rest);
    }
  }

  /** Reads one turn from the lines of a response; every malformed or unfinished stream gives none. */
  method ReadStreamedChat(lines: seq<string>, parse: string -> Option<Value>) returns (turn: Option<Turn>)
    ensures turn == Read(Events(lines, []), parse)
  {
    var events := SseData(lines);
    var reader := EMPTY;
    ghost var done: seq<Chunk> := [];
    ReadingStarts(events, parse);
    for i := 0 to |events|
      invariant Reading(events, parse, i, reader, done)
    {
      ReadingStops(events, parse, i, reader, done);
      if events[i] == DONE {
        if reader.terminal.None? {
          return None;
        }
        turn := Assemble(reader);
        return;
      }
      var chunk := DecodeEvent(events[i], parse);
      if chunk.None? {
        return None;
      }
      ReadingGoesOn(events, parse, i, reader, done, chunk.value);
      var next := Absorb(reader, chunk.value);
      if next.None? {
        return None;
      }
      done, reader := done + [chunk.value], next.value;
    }
    ReadingStops(events, parse, |events|, reader, done);
    return None;
  }

  method Absorb(reader: Reader, chunk: Chunk) returns (next: Option<Reader>)
    ensures next == AddChunk(reader, chunk)
  {
    if reader.terminal.Some? && (Speaks(chunk) || chunk.terminal.Some?) {
      return None;
    }
    var calls := reader.calls;
    for i := 0 to |chunk.fragments|
      invariant AddFragments(reader.calls, chunk.fragments[..i]) == Some(calls)
    {
      var f := chunk.fragments[i];
      assert chunk.fragments[..i + 1][..i] == chunk.fragments[..i];
      var call := At(calls, f.index);
      if !FragmentFits(call, f) {
        FailedFragments(reader.calls, chunk.fragments, i + 1);
        return None;
      }
      calls := calls[f.index := Extend(call, f)];
    }
    assert chunk.fragments[..|chunk.fragments|] == chunk.fragments;
    var model := if chunk.model.Some? then chunk.model else reader.model;
    var terminal := if chunk.terminal.Some? then chunk.terminal else reader.terminal;
    return Some(Reader(model, Glue(reader.content, chunk.content), Glue(reader.reasoning, chunk.reasoning), calls, terminal));
  }

  lemma {:induction false} FailedFragments(calls: map<nat, Partial>, fs: seq<Fragment>, i: nat)
    requires i <= |fs| && AddFragments(calls, fs[..i]).None?
    ensures AddFragments(calls, fs).None?
    decreases |fs|
  {
    if i == |fs| {
      assert fs[..i] == fs;
    } else {
      var n := |fs| - 1;
      assert fs[..n][..i] == fs[..i];
      FailedFragments(calls, fs[..n], i);
    }
  }

  // The indices taken out of the keys in order, and the calls made of them.
  ghost predicate Arranged(all: map<nat, Partial>, rest: set<nat>, indices: seq<nat>, calls: seq<Call>) {
    InTurn(all.Keys, rest, indices) && MadeOf(all, indices, calls)
  }

  ghost predicate InTurn(keys: set<nat>, rest: set<nat>, indices: seq<nat>) {
    && rest <= keys && Ordered(keys) == indices + Ordered(rest)
    && (forall x :: x in indices <==> x in keys && x !in rest)
  }

  ghost predicate MadeOf(all: map<nat, Partial>, indices: seq<nat>, calls: seq<Call>) {
    |calls| == |indices| && forall k :: 0 <= k < |indices| ==> ArrangedAt(all, indices[k], calls[k])
  }

  predicate ArrangedAt(all: map<nat, Partial>, index: nat, call: Call) {
    index in all && Complete(all[index]) && call == CallFrom(all[index])
  }

  lemma {:induction false} LeastIsFirst(rest: set<nat>, index: nat)
    requires rest != {} && index in rest && index == Least(rest)
    ensures Ordered(rest) == [index] + Ordered(rest - {index})
  {
  }

  lemma {:induction false} InTurnNext(keys: set<nat>, rest: set<nat>, indices: seq<nat>, index: nat, tail: seq<nat>)
    requires rest <= keys && index in rest && Ordered(keys) == indices + ([index] + tail)
    requires (forall x :: x in indices <==> x in keys && x !in rest) && tail == Ordered(rest - {index})
    ensures InTurn(keys, rest - {index}, indices + [index])
  {
    assert (indices + [index]) + tail == indices + ([index] + tail);
  }

  lemma {:induction false} ArrangeNext(all: map<nat, Partial>, rest: set<nat>, indices: seq<nat>, calls: seq<Call>, index: nat)
    requires Arranged(all, rest, indices, calls) && rest != {} && index in rest && index == Least(rest)
    requires index in all && Complete(all[index])
    ensures Arranged(all, rest - {index}, indices + [index], calls + [CallFrom(all[index])])
  {
    LeastIsFirst(rest, index);
    InTurnNext(all.Keys, rest, indices, index, Ordered(rest - {index}));
  }

  lemma {:induction false} AllArranged(reader: Reader, indices: seq<nat>, calls: seq<Call>)
    requires reader.terminal.Some? && reader.terminal.value.reason != "length" && Arranged(reader.calls, {}, indices, calls)
    ensures TurnOf(reader) == Some(Turn(reader.model, reader.terminal.value, reader.content, reader.reasoning, calls))
  {
    assert Ordered(reader.calls.Keys) == indices + [] == indices;
    forall i | i in reader.calls
      ensures Complete(reader.calls[i])
    {
      assert i in indices;
    }
    OrderedElements(reader.calls.Keys);
    assert calls == InOrder(reader.calls, indices);
  }

  /** The calls in ascending index order, unless the turn was cut by the length limit. */
  method Assemble(reader: Reader) returns (turn: Option<Turn>)
    requires reader.terminal.Some?
    ensures turn == TurnOf(reader)
  {
    var calls: seq<Call> := [];
    if reader.terminal.value.reason != "length" {
      var rest := reader.calls.Keys;
      ghost var indices: seq<nat> := [];
      while rest != {}
        invariant Arranged(reader.calls, rest, indices, calls)
      {
        ghost var m := HasLeast(rest);
        assert IsLeast(rest, m);
        var index :| index in rest && forall x :: x in rest ==> index <= x;
        assert index == Least(rest);
        if !Complete(reader.calls[index]) {
          assert index in reader.calls;
          return None;
        }
        ArrangeNext(reader.calls, rest, indices, calls, index);
        calls := calls + [CallFrom(reader.calls[index])];
        indices := indices + [index];
        rest := rest - {index};
      }
      AllArranged(reader, indices, calls);
    }
    return Some(Turn(reader.model, reader.terminal.value, reader.content, reader.reasoning, calls));
  }

  // ---------------------------------------------------------------- what a stream cuts up

  function AllFragments(cs: seq<Chunk>): seq<Fragment> {
    if cs == [] then [] else AllFragments(cs[..|cs| - 1]) + cs[|cs| - 1].fragments
  }

  function GlueAll(pieces: seq<Option<string>>): Option<string> {
    if pieces == [] then None else Glue(GlueAll(pieces[..|pieces| - 1]), pieces[|pieces| - 1])
  }

  function Contents(cs: seq<Chunk>): seq<Option<string>> {
    seq(|cs|, i requires 0 <= i < |cs| => cs[i].content)
  }

  function Reasonings(cs: seq<Chunk>): seq<Option<string>> {
    seq(|cs|, i requires 0 <= i < |cs| => cs[i].reasoning)
  }

  function LastModel(cs: seq<Chunk>): Option<string> {
    if cs == [] then None
    else if cs[|cs| - 1].model.Some? then cs[|cs| - 1].model
    else LastModel(cs[..|cs| - 1])
  }

  // The argument pieces for one call, in stream order.
  function ArgumentsOf(fs: seq<Fragment>, index: nat): seq<string> {
    if fs == [] then []
    else
      var f := fs[|fs| - 1];
      ArgumentsOf(fs[..|fs| - 1], index) + if f.index == index && f.arguments.Some? then [f.arguments.value] else []
  }

  // A turn before it is sent: its calls by their stream index.
  datatype Whole = Whole(
    model: Option<string>, terminal: Terminal, content: Option<string>, reasoning: Option<string>, calls: map<nat, Call>)

  // Nothing but empty deltas after the terminal chunk, and only one of those.
  ghost predicate EndsQuietly(cs: seq<Chunk>) {
    forall j, k :: 0 <= j < k < |cs| && cs[j].terminal.Some? ==> cs[k].terminal.None? && !Speaks(cs[k])
  }

  predicate Tells(f: Fragment, call: Call) {
    && (f.id.None? || f.id == Some(call.id)) && (f.kind.None? || f.kind == Some("function"))
    && (f.name.None? || f.name == Some(call.name))
  }

  // The pieces of one call: its id, type and name are given, its arguments add up.
  ghost predicate CutsCall(fs: seq<Fragment>, i: nat, call: Call) {
    && call.id != "" && call.name != "" && Concat(ArgumentsOf(fs, i)) == call.arguments
    && (exists k :: 0 <= k < |fs| && fs[k].index == i && fs[k].id.Some?)
    && (exists k :: 0 <= k < |fs| && fs[k].index == i && fs[k].kind.Some?)
    && (exists k :: 0 <= k < |fs| && fs[k].index == i && fs[k].name.Some?)
  }

  // The fragments cut up exactly these calls, interleaved in any way.
  ghost predicate CutsCalls(fs: seq<Fragment>, calls: map<nat, Call>) {
    && (forall k :: 0 <= k < |fs| ==> fs[k].index in calls && Tells(fs[k], calls[fs[k].index]))
    && (forall i :: i in calls ==> CutsCall(fs, i, calls[i]))
  }

  // Two pieces of the same call never disagree about its id, type or name.
  ghost predicate Consistent(fs: seq<Fragment>) {
    forall j, k :: 0 <= j < |fs| && 0 <= k < |fs| && fs[j].index == fs[k].index ==> Alike(fs[j], fs[k])
  }

  predicate Alike(f: Fragment, g: Fragment) {
    Agrees(f.id, g.id) && Agrees(f.kind, g.kind) && Agrees(f.name, g.name)
  }

  // A turn that ran into the length limit: its calls may break off anywhere and are not read.
  predicate CutShort(t: Whole) {
    t.terminal.reason == "length"
  }

  /** The chunks are some way of cutting the whole turn into deltas. */
  ghost predicate Cuts(cs: seq<Chunk>, t: Whole) {
    && GlueAll(Contents(cs)) == t.content && GlueAll(Reasonings(cs)) == t.reasoning && LastModel(cs) == t.model
    && EndsQuietly(cs) && (exists k :: 0 <= k < |cs| && cs[k].terminal == Some(t.terminal))
    && if CutShort(t) then Consistent(AllFragments(cs)) else CutsCalls(AllFragments(cs), t.calls)
  }

  ghost function Sent(t: Whole): Turn {
    OrderedElements(t.calls.Keys);
    var order := Ordered(t.calls.Keys);
    Turn(t.model, t.terminal, t.content, t.reasoning,
         if CutShort(t) then [] else seq(|order|, i requires 0 <= i < |order| => t.calls[order[i]]))
  }

  // ---- fragments

  // What the accumulated calls remember of the fragments.
  ghost predicate Tracks(fs: seq<Fragment>, m: map<nat, Partial>) {
    && (forall k :: 0 <= k < |fs| ==> fs[k].index in m && Recorded(fs[k], m[fs[k].index]))
    && (forall i :: i in m ==> m[i].arguments == ArgumentsOf(fs, i) && Sourced(fs, i, m[i]))
  }

  predicate Recorded(f: Fragment, p: Partial) {
    (f.id.Some? ==> p.id == f.id) && (f.kind.Some? ==> p.kind == f.kind) && (f.name.Some? ==> p.name == f.name)
  }

  ghost predicate Sourced(fs: seq<Fragment>, i: nat, p: Partial) {
    && (exists k :: 0 <= k < |fs| && fs[k].index == i)
    && (p.id.Some? ==> exists k :: 0 <= k < |fs| && fs[k].index == i && fs[k].id == p.id)
    && (p.kind.Some? ==> exists k :: 0 <= k < |fs| && fs[k].index == i && fs[k].kind == p.kind)
    && (p.name.Some? ==> exists k :: 0 <= k < |fs| && fs[k].index == i && fs[k].name == p.name)
  }

  lemma {:induction false} TracksSnoc(fs: seq<Fragment>, m: map<nat, Partial>, f: Fragment)
    requires Tracks(fs, m) && FragmentFits(At(m, f.index), f)
    requires f.index !in m ==> ArgumentsOf(fs, f.index) == []
    ensures Tracks(fs + [f], m[f.index := Extend(At(m, f.index), f)])
  {
    var all, next := fs + [f], m[f.index := Extend(At(m, f.index), f)];
    assert all[..|fs|] == fs;
    forall i | i in next
      ensures next[i].arguments == ArgumentsOf(all, i) && Sourced(all, i, next[i])
    {
      if i in m {
        SourcedMore(fs, f, i, m[i]);
      }
      assert all[|fs|] == f;
    }
  }

  lemma {:induction false} SourcedMore(fs: seq<Fragment>, f: Fragment, i: nat, p: Partial)
    requires Sourced(fs, i, p)
    ensures Sourced(fs + [f], i, p)
  {
    var all := fs + [f];
    assert forall k :: 0 <= k < |fs| ==> all[k] == fs[k];
  }

  lemma {:induction false} NoArguments(fs: seq<Fragment>, i: nat)
    requires forall k :: 0 <= k < |fs| ==> fs[k].index != i
    ensures ArgumentsOf(fs, i) == []
    decreases |fs|
  {
    if fs != [] {
      NoArguments(fs[..|fs| - 1], i);
    }
  }

  lemma {:induction false} TrackedNext(fs: seq<Fragment>, f: Fragment, m: map<nat, Partial>)
    requires Tracks(fs, m) && FragmentFits(At(m, f.index), f)
    ensures Tracks(fs + [f], m[f.index := Extend(At(m, f.index), f)])
  {
    if f.index !in m {
      NoArguments(fs, f.index);
    }
    TracksSnoc(fs, m, f);
  }

  lemma {:induction false} FragmentsTracked(fs: seq<Fragment>)
    requires AddFragments(map[], fs).Some?
    ensures Tracks(fs, AddFragments(map[], fs).value)
    decreases |fs|
  {
    if fs != [] {
      var front, last := fs[..|fs| - 1], fs[|fs| - 1];
      FragmentsTracked(front);
      TrackedNext(front, last, AddFragments(map[], front).value);
      assert fs == front + [last];
    }
  }

  lemma {:induction false} ConsistentNext(front: seq<Fragment>, f: Fragment, m: map<nat, Partial>)
    requires Tracks(front, m) && forall k :: 0 <= k < |front| && front[k].index == f.index ==> Alike(front[k], f)
    ensures FragmentFits(At(m, f.index), f)
  {
    if f.index in m {
      assert Sourced(front, f.index, m[f.index]);
    }
  }

  lemma {:induction false} ConsistentFragmentsFit(fs: seq<Fragment>)
    requires Consistent(fs)
    ensures AddFragments(map[], fs).Some?
    decreases |fs|
  {
    if fs != [] {
      var front, f := fs[..|fs| - 1], fs[|fs| - 1];
      assert forall k :: 0 <= k < |front| ==> front[k] == fs[k];
      ConsistentFragmentsFit(front);
      FragmentsTracked(front);
      ConsistentNext(front, f, AddFragments(map[], front).value);
    }
  }

  // Fragments accumulate exactly when they never contradict each other.
  lemma {:induction false} FitIffConsistent(fs: seq<Fragment>)
    ensures AddFragments(map[], fs).Some? <==> Consistent(fs)
  {
    if Consistent(fs) {
      ConsistentFragmentsFit(fs);
    }
    if AddFragments(map[], fs).Some? {
      FragmentsTracked(fs);
      TrackedIsConsistent(fs, AddFragments(map[], fs).value);
    }
  }

  lemma {:induction false} TrackedIsConsistent(fs: seq<Fragment>, m: map<nat, Partial>)
    requires Tracks(fs, m)
    ensures Consistent(fs)
  {
    assert forall k :: 0 <= k < |fs| ==> fs[k].index in m && Recorded(fs[k], m[fs[k].index]);
  }

  lemma {:induction false} CallRebuilt(fs: seq<Fragment>, m: map<nat, Partial>, i: nat, call: Call)
    requires Tracks(fs, m) && CutsCall(fs, i, call)
    requires forall k :: 0 <= k < |fs| && fs[k].index == i ==> Tells(fs[k], call)
    ensures i in m && Complete(m[i]) && CallFrom(m[i]) == call
  {
    var a :| 0 <= a < |fs| && fs[a].index == i && fs[a].id.Some?;
    var b :| 0 <= b < |fs| && fs[b].index == i && fs[b].kind.Some?;
    var c :| 0 <= c < |fs| && fs[c].index == i && fs[c].name.Some?;
    assert Recorded(fs[a], m[i]) && Recorded(fs[b], m[i]) && Recorded(fs[c], m[i]);
  }

  // Accumulating the fragments of some calls gives back these calls.
  lemma {:induction false} CallsRebuilt(fs: seq<Fragment>, calls: map<nat, Call>)
    requires CutsCalls(fs, calls)
    ensures AddFragments(map[], fs).Some?
    ensures var m := AddFragments(map[], fs).value;
            m.Keys == calls.Keys && forall i :: i in calls ==> i in m && Complete(m[i]) && CallFrom(m[i]) == calls[i]
  {
    FitIffConsistent(fs);
    FragmentsTracked(fs);
    RebuiltFrom(fs, calls, AddFragments(map[], fs).value);
  }

  lemma {:induction false} RebuiltFrom(fs: seq<Fragment>, calls: map<nat, Call>, m: map<nat, Partial>)
    requires CutsCalls(fs, calls) && Tracks(fs, m)
    ensures m.Keys == calls.Keys && forall i :: i in calls ==> i in m && Complete(m[i]) && CallFrom(m[i]) == calls[i]
  {
    forall i | i in calls
      ensures i in m && Complete(m[i]) && CallFrom(m[i]) == calls[i]
    {
      CallRebuilt(fs, m, i, calls[i]);
    }
    OnlyCutCalls(fs, calls, m);
  }

  lemma {:induction false} OnlyCutCalls(fs: seq<Fragment>, calls: map<nat, Call>, m: map<nat, Partial>)
    requires Tracks(fs, m) && forall k :: 0 <= k < |fs| ==> fs[k].index in calls
    ensures m.Keys <= calls.Keys
  {
    forall i | i in m
      ensures i in calls
    {
      assert Sourced(fs, i, m[i]);
    }
  }

  lemma {:induction false} CallExplained(fs: seq<Fragment>, m: map<nat, Partial>, i: nat)
    requires Tracks(fs, m) && i in m && Complete(m[i])
    ensures CutsCall(fs, i, CallFrom(m[i]))
  {
    assert Sourced(fs, i, m[i]);
  }

  // Complete accumulated calls are cut up by the fragments they came from.
  lemma {:induction false} CallsExplained(fs: seq<Fragment>)
    requires AddFragments(map[], fs).Some?
    requires var m := AddFragments(map[], fs).value; forall i :: i in m ==> Complete(m[i])
    ensures var m := AddFragments(map[], fs).value; CutsCalls(fs, map i | i in m :: CallFrom(m[i]))
  {
    var m := AddFragments(map[], fs).value;
    FragmentsTracked(fs);
    var calls := map i | i in m :: CallFrom(m[i]);
    forall k | 0 <= k < |fs|
      ensures fs[k].index in calls && Tells(fs[k], calls[fs[k].index])
    {
      assert Recorded(fs[k], m[fs[k].index]);
    }
    forall i | i in calls
      ensures CutsCall(fs, i, calls[i])
    {
      CallExplained(fs, m, i);
    }
  }

  // ---- chunks

  lemma {:induction false} AddFragmentsAppend(fs: seq<Fragment>, more: seq<Fragment>)
    requires AddFragments(map[], fs).Some?
    ensures AddFragments(map[], fs + more) == AddFragments(AddFragments(map[], fs).value, more)
    decreases |more|
  {
    if more == [] {
      assert fs + more == fs;
    } else {
      var n := |more| - 1;
      assert (fs + more)[..|fs + more| - 1] == fs + more[..n];
      AddFragmentsAppend(fs, more[..n]);
    }
  }

  lemma {:induction false} FailedFragmentsAppend(fs: seq<Fragment>, more: seq<Fragment>)
    requires AddFragments(map[], fs).None?
    ensures AddFragments(map[], fs + more).None?
  {
    assert (fs + more)[..|fs|] == fs;
    FailedFragments(map[], fs + more, |fs|);
  }

  ghost predicate Folded(cs: seq<Chunk>, r: Reader) {
    && r.content == GlueAll(Contents(cs)) && r.reasoning == GlueAll(Reasonings(cs)) && r.model == LastModel(cs)
    && Some(r.calls) == AddFragments(map[], AllFragments(cs))
    && (r.terminal.None? <==> forall k :: 0 <= k < |cs| ==> cs[k].terminal.None?)
    && (r.terminal.Some? ==> exists k :: 0 <= k < |cs| && cs[k].terminal == r.terminal)
  }

  // Accumulation succeeds exactly on streams that end quietly and never contradict themselves.
  ghost predicate FoldsExactly(cs: seq<Chunk>) {
    && (AddChunks(cs).Some? <==> EndsQuietly(cs) && AddFragments(map[], AllFragments(cs)).Some?)
    && (AddChunks(cs).Some? ==> Folded(cs, AddChunks(cs).value))
  }

  lemma {:induction false} PiecesSnoc(cs: seq<Chunk>, c: Chunk)
    ensures GlueAll(Contents(cs + [c])) == Glue(GlueAll(Contents(cs)), c.content)
    ensures GlueAll(Reasonings(cs + [c])) == Glue(GlueAll(Reasonings(cs)), c.reasoning)
    ensures LastModel(cs + [c]) == if c.model.Some? then c.model else LastModel(cs)
    ensures AllFragments(cs + [c]) == AllFragments(cs) + c.fragments
  {
    var all, n := cs + [c], |cs|;
    assert all[..n] == cs;
    assert Contents(all)[..n] == Contents(cs) && Reasonings(all)[..n] == Reasonings(cs);
  }

  lemma {:induction false} FoldedSnoc(cs: seq<Chunk>, r: Reader, c: Chunk)
    requires Folded(cs, r) && AddChunk(r, c).Some?
    ensures Folded(cs + [c], AddChunk(r, c).value)
  {
    var all, next := cs + [c], AddChunk(r, c).value;
    PiecesSnoc(cs, c);
    AddFragmentsAppend(AllFragments(cs), c.fragments);
    assert all[|cs|] == c && forall k :: 0 <= k < |cs| ==> all[k] == cs[k];
    if next.terminal.Some? && c.terminal.None? {
      var k :| 0 <= k < |cs| && cs[k].terminal == r.terminal;
      assert all[k].terminal == next.terminal;
    }
  }

  lemma {:induction false} SucceedsSnoc(cs: seq<Chunk>, c: Chunk)
    requires FoldsExactly(cs)
    ensures AddChunks(cs + [c]).Some? <==> EndsQuietly(cs + [c]) && AddFragments(map[], AllFragments(cs + [c])).Some?
  {
    AddChunksSnoc(cs, c);
    PiecesSnoc(cs, c);
    QuietInit(cs, c);
    if AddFragments(map[], AllFragments(cs)).None? {
      FailedFragmentsAppend(AllFragments(cs), c.fragments);
    } else if EndsQuietly(cs) {
      AddFragmentsAppend(AllFragments(cs), c.fragments);
      QuietEnd(cs, c, AddChunks(cs).value.terminal);
    }
  }

  lemma {:induction false} QuietInit(cs: seq<Chunk>, c: Chunk)
    ensures EndsQuietly(cs + [c]) ==> EndsQuietly(cs)
  {
    assert forall k :: 0 <= k < |cs| ==> (cs + [c])[k] == cs[k];
  }

  lemma {:induction false} ChunksFold(cs: seq<Chunk>)
    ensures FoldsExactly(cs)
    ensures AddChunks(cs).Some? <==> EndsQuietly(cs) && Consistent(AllFragments(cs))
    decreases |cs|
  {
    if cs != [] {
      var init, c := cs[..|cs| - 1], cs[|cs| - 1];
      ChunksFold(init);
      assert cs == init + [c];
      SucceedsSnoc(init, c);
      AddChunksSnoc(init, c);
      if AddChunks(cs).Some? {
        FoldedSnoc(init, AddChunks(init).value, c);
      }
    }
    FitIffConsistent(AllFragments(cs));
  }

  lemma {:induction false} QuietEnd(init: seq<Chunk>, c: Chunk, terminal: Option<Terminal>)
    requires EndsQuietly(init)
    requires terminal.None? <==> forall k :: 0 <= k < |init| ==> init[k].terminal.None?
    ensures EndsQuietly(init + [c]) <==> !(terminal.Some? && (Speaks(c) || c.terminal.Some?))
  {
    var cs := init + [c];
    if terminal.Some? {
      var j :| 0 <= j < |init| && init[j].terminal.Some?;
      assert cs[j].terminal.Some? && cs[|init|] == c;
    }
  }

  // ---------------------------------------------------------------- theorems: one turn

  lemma {:induction false} AssembledCalls(m: map<nat, Partial>, calls: map<nat, Call>)
    requires m.Keys == calls.Keys && forall i :: i in calls ==> i in m && Complete(m[i]) && CallFrom(m[i]) == calls[i]
    ensures var order := Ordered(calls.Keys);
            && (forall k :: 0 <= k < |order| ==> order[k] in m && Complete(m[order[k]]))
            && (forall k :: 0 <= k < |order| ==> order[k] in calls)
            && InOrder(m, order) == seq(|order|, i requires 0 <= i < |order| => calls[order[i]])
  {
    OrderedElements(calls.Keys);
    var order := Ordered(calls.Keys);
    forall k | 0 <= k < |order|
      ensures order[k] in calls
    {
      assert order[k] in order;
    }
  }

  // Once a stream has a terminal chunk, the quiet end makes it the only one.
  lemma {:induction false} OneTerminal(cs: seq<Chunk>, j: nat, k: nat)
    requires EndsQuietly(cs) && j < |cs| && k < |cs| && cs[j].terminal.Some? && cs[k].terminal.Some?
    ensures j == k
  {
  }

  /**
   * Reassembly inverts fragmentation: however a turn is cut into content, reasoning and argument
   * pieces and however its calls are interleaved, reading gives the turn back, calls in index order.
   * A turn that ran into the length limit comes back without its calls.
   */
  lemma {:induction false} ReadingInvertsCutting(cs: seq<Chunk>, t: Whole)
    requires Cuts(cs, t)
    ensures AddChunks(cs).Some? && TurnOf(AddChunks(cs).value) == Some(Sent(t))
  {
    FragmentsOfCut(AllFragments(cs), t);
    ChunksFold(cs);
    var r := AddChunks(cs).value;
    var k :| 0 <= k < |cs| && cs[k].terminal == Some(t.terminal);
    var j :| 0 <= j < |cs| && cs[j].terminal == r.terminal;
    OneTerminal(cs, j, k);
    if !CutShort(t) {
      OrderedElements(r.calls.Keys);
      AssembledCalls(r.calls, t.calls);
    }
  }

  lemma {:induction false} FragmentsOfCut(fs: seq<Fragment>, t: Whole)
    requires if CutShort(t) then Consistent(fs) else CutsCalls(fs, t.calls)
    ensures AddFragments(map[], fs).Some?
    ensures !CutShort(t) ==>
              var m := AddFragments(map[], fs).value;
              m.Keys == t.calls.Keys && forall i :: i in t.calls ==> i in m && Complete(m[i]) && CallFrom(m[i]) == t.calls[i]
  {
    if CutShort(t) {
      FitIffConsistent(fs);
    } else {
      CallsRebuilt(fs, t.calls);
    }
  }

  /** Conversely a stream is read as a turn only if it is a way of cutting that turn. */
  lemma {:induction false} OnlyCutsAreRead(cs: seq<Chunk>) returns (t: Whole)
    requires AddChunks(cs).Some? && TurnOf(AddChunks(cs).value).Some?
    ensures Cuts(cs, t) && TurnOf(AddChunks(cs).value).value == Sent(t)
  {
    ChunksFold(cs);
    var r := AddChunks(cs).value;
    if r.terminal.value.reason == "length" {
      FitIffConsistent(AllFragments(cs));
      t := Whole(r.model, r.terminal.value, r.content, r.reasoning, map[]);
    } else {
      CallsExplained(AllFragments(cs));
      var calls := map i | i in r.calls :: CallFrom(r.calls[i]);
      t := Whole(r.model, r.terminal.value, r.content, r.reasoning, calls);
      OrderedElements(r.calls.Keys);
      AssembledCalls(r.calls, calls);
    }
  }

  function FragmentsAt(fs: seq<Fragment>, index: nat): seq<Fragment> {
    if fs == [] then []
    else FragmentsAt(fs[..|fs| - 1], index) + if fs[|fs| - 1].index == index then [fs[|fs| - 1]] else []
  }

  lemma {:induction false} FragmentsAtMembers(fs: seq<Fragment>, index: nat)
    ensures forall f :: f in FragmentsAt(fs, index) <==> f in fs && f.index == index
    decreases |fs|
  {
    if fs != [] {
      var n := |fs| - 1;
      FragmentsAtMembers(fs[..n], index);
      assert forall f :: f in fs <==> f in fs[..n] || f == fs[n];
    }
  }

  lemma {:induction false} ArgumentsSnoc(fs: seq<Fragment>, f: Fragment, index: nat)
    ensures ArgumentsOf(fs + [f], index) ==
            ArgumentsOf(fs, index) + if f.index == index && f.arguments.Some? then [f.arguments.value] else []
  {
    assert (fs + [f])[..|fs|] == fs;
  }

  lemma {:induction false} FragmentsAtArguments(fs: seq<Fragment>, index: nat)
    ensures ArgumentsOf(FragmentsAt(fs, index), index) == ArgumentsOf(fs, index)
    decreases |fs|
  {
    if fs != [] {
      var n := |fs| - 1;
      FragmentsAtArguments(fs[..n], index);
      if fs[n].index == index {
        ArgumentsSnoc(FragmentsAt(fs[..n], index), fs[n], index);
      } else {
        assert FragmentsAt(fs, index) == FragmentsAt(fs[..n], index);
      }
    }
  }

  /**
   * Two streams that carry the same pieces for every call, in the same order per call, are cuts of
   * the same calls, whatever the interleaving of the calls.
   */
  lemma {:induction false} InterleavingDoesNotMatter(fs: seq<Fragment>, gs: seq<Fragment>, calls: map<nat, Call>)
    requires forall i :: FragmentsAt(fs, i) == FragmentsAt(gs, i)
    ensures CutsCalls(fs, calls) ==> CutsCalls(gs, calls)
  {
    if CutsCalls(fs, calls) {
      forall k | 0 <= k < |gs|
        ensures gs[k].index in calls && Tells(gs[k], calls[gs[k].index])
      {
        FragmentElsewhere(gs, fs, gs[k]);
      }
      forall i | i in calls
        ensures CutsCall(gs, i, calls[i])
      {
        CallElsewhere(fs, gs, i, calls[i]);
      }
    }
  }

  lemma {:induction false} FragmentElsewhere(fs: seq<Fragment>, gs: seq<Fragment>, f: Fragment)
    requires FragmentsAt(fs, f.index) == FragmentsAt(gs, f.index) && f in fs
    ensures f in gs
  {
    FragmentsAtMembers(fs, f.index);
    FragmentsAtMembers(gs, f.index);
  }

  lemma {:induction false} CallElsewhere(fs: seq<Fragment>, gs: seq<Fragment>, i: nat, call: Call)
    requires FragmentsAt(fs, i) == FragmentsAt(gs, i) && CutsCall(fs, i, call)
    ensures CutsCall(gs, i, call)
  {
    FragmentsAtArguments(fs, i);
    FragmentsAtArguments(gs, i);
    var a :| 0 <= a < |fs| && fs[a].index == i && fs[a].id.Some?;
    var b :| 0 <= b < |fs| && fs[b].index == i && fs[b].kind.Some?;
    var c :| 0 <= c < |fs| && fs[c].index == i && fs[c].name.Some?;
    FragmentElsewhere(fs, gs, fs[a]);
    FragmentElsewhere(fs, gs, fs[b]);
    FragmentElsewhere(fs, gs, fs[c]);
  }

  // ---------------------------------------------------------------- theorems: nothing early

  lemma {:induction false} NoDoneNoEvent(lines: seq<string>, open: seq<string>)
    requires forall i :: 0 <= i < |lines| ==> DataValue(lines[i]) != Some(DONE)
    requires JoinLines(open) != DONE
    requires DONE !in open
    ensures forall e :: e in Events(lines, open) ==> e != DONE
    decreases |lines|
  {
    if lines != [] {
      assert lines[0] in lines;
      var value := DataValue(lines[0]);
      if value.Some? {
        JoinedIsNotDone(open + [value.value]);
        NoDoneNoEvent(lines[1..], open + [value.value]);
      } else if lines[0] == "" {
        NoDoneNoEvent(lines[1..], []);
      } else {
        NoDoneNoEvent(lines[1..], open);
      }
    }
  }

  lemma {:induction false} JoinedIsNotDone(lines: seq<string>)
    requires DONE !in lines
    ensures JoinLines(lines) != DONE
  {
    if |lines| == 1 {
      assert lines[0] in lines;
    } else if |lines| > 1 {
      var front := JoinLines(lines[..|lines| - 1]);
      assert JoinLines(lines)[|front|] == '\n';
      assert '\n' !in DONE;
    }
  }

  lemma {:induction false} NoDoneNoChunks(events: seq<string>, parse: string -> Option<Value>)
    requires DONE !in events
    ensures Chunks(events, parse).None?
  {
    if events != [] {
      NoDoneNoChunks(events[1..], parse);
    }
  }

  /** A response that breaks off anywhere before its [DONE] line exposes nothing at all. */
  lemma {:induction false} CutStreamExposesNothing(lines: seq<string>, parse: string -> Option<Value>)
    requires forall i :: 0 <= i < |lines| ==> DataValue(lines[i]) != Some(DONE)
    ensures Read(Events(lines, []), parse).None?
  {
    NoDoneNoEvent(lines, []);
    NoDoneNoChunks(Events(lines, []), parse);
  }

  /**
   * What is read carries the finish reason and usage of exactly one chunk, and a turn that the
   * length limit cut off carries no tool call.
   */
  lemma {:induction false} NothingWithoutFinish(events: seq<string>, parse: string -> Option<Value>)
    ensures Read(events, parse).Some? ==>
              && Chunks(events, parse).Some?
              && (exists c :: c in Chunks(events, parse).value && c.terminal == Some(Read(events, parse).value.terminal))
              && (Read(events, parse).value.terminal.reason == "length" ==> Read(events, parse).value.calls == [])
  {
    if Read(events, parse).Some? {
      FoldedTerminal(Chunks(events, parse).value);
    }
  }

  lemma {:induction false} FoldedTerminal(cs: seq<Chunk>)
    requires AddChunks(cs).Some? && AddChunks(cs).value.terminal.Some?
    ensures exists c :: c in cs && c.terminal == AddChunks(cs).value.terminal
  {
    ChunksFold(cs);
    var r := AddChunks(cs).value;
    var k :| 0 <= k < |cs| && cs[k].terminal == r.terminal;
    assert cs[k] in cs;
  }

  // ---------------------------------------------------------------- theorems: the line layer

  function SplitNewlines(s: string): (lines: seq<string>)
    ensures lines != []
  {
    if s == "" then [""]
    else
      var n := |s| - 1;
      var lines := SplitNewlines(s[..n]);
      if s[n] == '\n' then lines + [""] else lines[..|lines| - 1] + [lines[|lines| - 1] + [s[n]]]
  }

  lemma {:induction false} JoinOneMore(lines: seq<string>, line: string)
    requires lines != []
    ensures JoinLines(lines + [line]) == JoinLines(lines) + "\n" + line
  {
    assert (lines + [line])[..|lines|] == lines;
  }

  lemma {:induction false} JoinLonger(lines: seq<string>, c: char)
    requires lines != []
    ensures JoinLines(lines[..|lines| - 1] + [lines[|lines| - 1] + [c]]) == JoinLines(lines) + [c]
  {
    var front, last := lines[..|lines| - 1], lines[|lines| - 1];
    if front != [] {
      JoinOneMore(front, last + [c]);
      JoinOneMore(front, last);
      assert lines == front + [last];
    } else {
      assert lines == [last] && [] + [last + [c]] == [last + [c]];
    }
  }

  lemma {:induction false} JoinAfterSplit(s: string)
    ensures JoinLines(SplitNewlines(s)) == s
    decreases |s|
  {
    if s != "" {
      var n := |s| - 1;
      JoinAfterSplit(s[..n]);
      var lines := SplitNewlines(s[..n]);
      if s[n] == '\n' {
        JoinOneMore(lines, "");
      } else {
        JoinLonger(lines, s[n]);
      }
      assert s == s[..n] + [s[n]];
    }
  }

  // A data line; the blank after the colon is optional unless the value starts with one.
  function Line(value: string, spaced: string -> bool): string {
    if " " <= value || spaced(value) then "data: " + value else "data:" + value
  }

  lemma {:induction false} LineValue(value: string, spaced: string -> bool)
    ensures DataValue(Line(value, spaced)) == Some(value)
  {
    assert ("data: " + value)[5..] == " " + value && (" " + value)[1..] == value;
    assert ("data:" + value)[5..] == value;
  }

  function Lines(values: seq<string>, spaced: string -> bool): seq<string> {
    seq(|values|, i requires 0 <= i < |values| => Line(values[i], spaced))
  }

  lemma {:induction false} LinesAppend(a: seq<string>, b: seq<string>, spaced: string -> bool)
    ensures Lines(a + b, spaced) == Lines(a, spaced) + Lines(b, spaced)
  {
  }

  // Section 9.2.6 of the WHATWG HTML Standard: one data line per payload line, then a blank line.
  function Framed(payloads: seq<string>, spaced: string -> bool): seq<string> {
    if payloads == [] then ["data: [DONE]"]
    else Lines(SplitNewlines(payloads[0]), spaced) + [""] + Framed(payloads[1..], spaced)
  }

  lemma {:induction false} EventsOfLines(values: seq<string>, spaced: string -> bool, rest: seq<string>, open: seq<string>)
    requires DONE !in values
    ensures Events(Lines(values, spaced) + rest, open) == Events(rest, open + values)
    decreases |values|
  {
    var all := Lines(values, spaced) + rest;
    if values == [] {
      assert all == rest && open + values == open;
    } else {
      LineValue(values[0], spaced);
      assert values[0] in values;
      assert all[1..] == Lines(values[1..], spaced) + rest;
      EventsOfLines(values[1..], spaced, rest, open + [values[0]]);
      assert open + [values[0]] + values[1..] == open + values;
    }
  }

  lemma {:induction false} EventsOfPayload(payload: string, spaced: string -> bool, rest: seq<string>)
    requires DONE !in SplitNewlines(payload)
    ensures Events(Lines(SplitNewlines(payload), spaced) + [""] + rest, []) == [payload] + Events(rest, [])
  {
    var values := SplitNewlines(payload);
    assert Lines(values, spaced) + [""] + rest == Lines(values, spaced) + ([""] + rest);
    EventsOfLines(values, spaced, [""] + rest, []);
    assert [] + values == values;
    assert ([""] + rest)[1..] == rest;
    JoinAfterSplit(payload);
  }

  lemma {:induction false} EventsUpToDone(
      front: seq<string>, more: seq<string>, spaced: string -> bool, rest: seq<string>)
    requires DONE !in front
    ensures Events(Lines(front + [DONE] + more, spaced) + rest, []) == Pending(front) + [DONE]
  {
    var tail := [Line(DONE, spaced)] + Lines(more, spaced) + rest;
    LinesAppend(front + [DONE], more, spaced);
    LinesAppend(front, [DONE], spaced);
    assert Lines(front + [DONE] + more, spaced) + rest == Lines(front, spaced) + tail;
    EventsOfLines(front, spaced, tail, []);
    assert [] + front == front;
    LineValue(DONE, spaced);
    EventsStop(tail, front);
  }

  lemma {:induction false} EventsStop(lines: seq<string>, open: seq<string>)
    requires lines != [] && DataValue(lines[0]) == Some(DONE)
    ensures Events(lines, open) == Pending(open) + [DONE]
  {
  }

  lemma {:induction false} JoinGrows(a: seq<string>, b: seq<string>)
    requires a != [] && b != []
    ensures |JoinLines(a + b)| > |JoinLines(a)|
    decreases |b|
  {
    var n := |b| - 1;
    assert (a + b)[..|a + b| - 1] == a + b[..n];
    if n > 0 {
      JoinGrows(a, b[..n]);
    } else {
      assert a + b[..n] == a;
    }
  }

  // The first [DONE] line of a value list.
  lemma {:induction false} SplitAtDone(values: seq<string>) returns (k: nat)
    requires DONE in values
    ensures k < |values| && values[k] == DONE && DONE !in values[..k]
  {
    if values[0] == DONE {
      k := 0;
    } else {
      var j := SplitAtDone(values[1..]);
      k := j + 1;
      assert forall x :: x in values[..k] ==> x == values[0] || x in values[1..][..j];
    }
  }

  lemma {:induction false} DoneLineCuts(payload: string, payloads: seq<string>, spaced: string -> bool) returns (front: seq<string>)
    requires DONE in SplitNewlines(payload)
    ensures Events(Framed([payload] + payloads, spaced), []) == Pending(front) + [DONE]
    ensures |front| < |SplitNewlines(payload)| && front <= SplitNewlines(payload)
  {
    var values := SplitNewlines(payload);
    var k := SplitAtDone(values);
    front := values[..k];
    var more, rest := values[k + 1..], [""] + Framed(payloads, spaced);
    assert values == front + [DONE] + more;
    assert ([payload] + payloads)[1..] == payloads;
    assert Framed([payload] + payloads, spaced) == Lines(values, spaced) + rest;
    EventsUpToDone(front, more, spaced, rest);
  }

  lemma {:induction false} PartIsShorter(payload: string, front: seq<string>)
    requires front != [] && |front| < |SplitNewlines(payload)| && front <= SplitNewlines(payload)
    ensures JoinLines(front) != payload
  {
    var values := SplitNewlines(payload);
    JoinAfterSplit(payload);
    assert values == front + values[|front|..];
    JoinGrows(front, values[|front|..]);
  }

  lemma {:induction false} DoneLineLosesEvents(payload: string, payloads: seq<string>, spaced: string -> bool)
    requires DONE in SplitNewlines(payload)
    ensures Events(Framed([payload] + payloads, spaced), []) != [payload] + payloads + [DONE]
  {
    var front := DoneLineCuts(payload, payloads, spaced);
    var want := [payload] + payloads + [DONE];
    assert want[0] == payload && |want| >= 2;
    if front != [] {
      PartIsShorter(payload, front);
      assert (Pending(front) + [DONE])[0] != payload;
    }
  }

  /**
   * The line layer undoes multi-line data framing exactly when no payload has a [DONE] line; a
   * payload with one is cut there and everything after it is lost.
   */
  lemma {:induction false} FramingRoundTrip(payloads: seq<string>, spaced: string -> bool)
    ensures Events(Framed(payloads, spaced), []) == payloads + [DONE] <==>
            forall i :: 0 <= i < |payloads| ==> DONE !in SplitNewlines(payloads[i])
    decreases |payloads|
  {
    if payloads == [] {
      assert "data: [DONE]"[5..] == " [DONE]" && " [DONE]"[1..] == DONE;
      assert Framed([], spaced)[0] == "data: [DONE]";
      assert Events(Framed([], spaced), []) == [DONE];
    } else {
      var p, rest := payloads[0], payloads[1..];
      assert payloads == [p] + rest;
      FramingRoundTrip(rest, spaced);
      if DONE in SplitNewlines(p) {
        DoneLineLosesEvents(p, rest, spaced);
      } else {
        EventsOfPayload(p, spaced, Framed(rest, spaced));
        assert Events(Framed(payloads, spaced), []) == [p] + Events(Framed(rest, spaced), []);
        SameTail([p], Events(Framed(rest, spaced), []), rest + [DONE]);
        assert payloads + [DONE] == [p] + (rest + [DONE]);
        assert forall i :: 0 <= i < |rest| ==> rest[i] == payloads[i + 1];
      }
    }
  }

  lemma {:induction false} SameTail(a: seq<string>, b: seq<string>, c: seq<string>)
    ensures a + b == a + c <==> b == c
  {
    assert (a + b)[|a|..] == b && (a + c)[|a|..] == c;
  }

  /** Comments and fields other than data change nothing, wherever they stand. */
  lemma {:induction false} OtherFieldsAreIgnored(before: seq<string>, noise: string, after: seq<string>, open: seq<string>)
    requires noise != "" && DataValue(noise).None?
    ensures Events(before + [noise] + after, open) == Events(before + after, open)
    decreases |before|
  {
    var all := before + [noise] + after;
    if before == [] {
      assert all[1..] == after && before + after == after;
    } else {
      assert all[1..] == before[1..] + [noise] + after && (before + after)[1..] == before[1..] + after;
      var value := DataValue(before[0]);
      OtherFieldsAreIgnored(before[1..], noise, after, if value.Some? then open + [value.value] else if before[0] == "" then [] else open);
    }
  }

  // ---------------------------------------------------------------- from turn to lines and back

  function OrNull(text: Option<string>): Value {
    if text.Some? then Str(text.value) else Null
  }

  function EncodeFragment(f: Fragment): Value {
    Obj(map["index" := Int(f.index), "id" := OrNull(f.id), "type" := OrNull(f.kind),
            "function" := Obj(map["name" := OrNull(f.name), "arguments" := OrNull(f.arguments)])])
  }

  function EncodeFragments(fs: seq<Fragment>): (vs: seq<Value>)
    ensures |vs| == |fs| && forall i :: 0 <= i < |fs| ==> vs[i] == EncodeFragment(fs[i])
  {
    seq(|fs|, i requires 0 <= i < |fs| => EncodeFragment(fs[i]))
  }

  // Empty names cannot be sent: they read as absent.
  predicate Sendable(c: Chunk) {
    forall k :: 0 <= k < |c.fragments| ==>
      c.fragments[k].id != Some("") && c.fragments[k].kind != Some("") && c.fragments[k].name != Some("")
  }

  lemma {:induction false} TextDecodes(text: Option<string>)
    ensures OptionalText(OrNull(text)) == Some(text)
    ensures text != Some("") ==> OptionalName(OrNull(text)) == Some(text)
  {
  }

  lemma {:induction false} FragmentDecodes(f: Fragment)
    requires f.id != Some("") && f.kind != Some("") && f.name != Some("")
    ensures DecodeFragment(EncodeFragment(f)) == Some(f)
  {
    var fields := EncodeFragment(f).fields;
    assert Get(fields, "index") == Int(f.index);
    assert Get(fields, "id") == OrNull(f.id);
    assert Get(fields, "type") == OrNull(f.kind);
    var inner := Get(fields, "function");
    assert inner == Obj(map["name" := OrNull(f.name), "arguments" := OrNull(f.arguments)]);
    assert Get(inner.fields, "name") == OrNull(f.name) && Get(inner.fields, "arguments") == OrNull(f.arguments);
    TextDecodes(f.id);
    TextDecodes(f.kind);
    TextDecodes(f.name);
    TextDecodes(f.arguments);
  }

  lemma {:induction false} FragmentsDecode(fs: seq<Fragment>)
    requires forall k :: 0 <= k < |fs| ==> fs[k].id != Some("") && fs[k].kind != Some("") && fs[k].name != Some("")
    ensures DecodeFragments(EncodeFragments(fs)) == Some(fs)
    decreases |fs|
  {
    if fs != [] {
      FragmentsDecode(fs[1..]);
      assert EncodeFragments(fs)[1..] == EncodeFragments(fs[1..]);
      FragmentDecodes(fs[0]);
      assert fs == [fs[0]] + fs[1..];
    }
  }

  function EncodeDelta(c: Chunk): Value {
    Obj(map["content" := OrNull(c.content), "reasoning_content" := OrNull(c.reasoning),
            "tool_calls" := List(EncodeFragments(c.fragments))])
  }

  function EncodeChoice(c: Chunk): Value {
    Obj(map["index" := Int(0), "delta" := EncodeDelta(c),
            "finish_reason" := if c.terminal.Some? then Str(c.terminal.value.reason) else Null])
  }

  function EncodeChunk(c: Chunk): Value {
    Obj(map["model" := OrNull(c.model), "choices" := List([EncodeChoice(c)]),
            "usage" := if c.terminal.Some? then Obj(c.terminal.value.usage) else Null])
  }

  lemma {:induction false} DeltaFields(c: Chunk)
    ensures Get(EncodeDelta(c).fields, "content") == OrNull(c.content)
    ensures Get(EncodeDelta(c).fields, "reasoning_content") == OrNull(c.reasoning)
    ensures Get(EncodeDelta(c).fields, "tool_calls") == List(EncodeFragments(c.fragments))
  {
  }

  lemma {:induction false} ChoiceFields(c: Chunk)
    ensures Get(EncodeChoice(c).fields, "index") == Int(0)
    ensures Get(EncodeChoice(c).fields, "delta") == EncodeDelta(c)
    ensures Get(EncodeChoice(c).fields, "finish_reason") == if c.terminal.Some? then Str(c.terminal.value.reason) else Null
  {
  }

  lemma {:induction false} ChunkFields(c: Chunk)
    ensures Get(EncodeChunk(c).fields, "model") == OrNull(c.model)
    ensures Get(EncodeChunk(c).fields, "choices") == List([EncodeChoice(c)])
    ensures Get(EncodeChunk(c).fields, "usage") == if c.terminal.Some? then Obj(c.terminal.value.usage) else Null
  {
  }

  lemma {:induction false} ChunkDecodes(c: Chunk)
    requires Sendable(c)
    ensures DecodeChunk(EncodeChunk(c)) == Some(c)
  {
    FragmentsDecode(c.fragments);
    DeltaFields(c);
    ChoiceFields(c);
    ChunkFields(c);
    TextDecodes(c.content);
    TextDecodes(c.reasoning);
  }

  // The parser undoes the JSON printer on these chunks, and no printed line reads [DONE].
  ghost predicate Inverts(parse: string -> Option<Value>, write: Value -> string, cs: seq<Chunk>) {
    forall k :: 0 <= k < |cs| ==> InvertsOn(parse, write, EncodeChunk(cs[k]))
  }

  ghost predicate InvertsOn(parse: string -> Option<Value>, write: Value -> string, v: Value) {
    parse(write(v)) == Some(v) && DONE !in SplitNewlines(write(v)) && write(v) != DONE
  }

  function Payloads(cs: seq<Chunk>, write: Value -> string): (r: seq<string>)
    ensures |r| == |cs| && forall i :: 0 <= i < |cs| ==> r[i] == write(EncodeChunk(cs[i]))
  {
    seq(|cs|, i requires 0 <= i < |cs| => write(EncodeChunk(cs[i])))
  }

  lemma {:induction false} PayloadsCons(cs: seq<Chunk>, write: Value -> string)
    requires cs != []
    ensures Payloads(cs, write) == [write(EncodeChunk(cs[0]))] + Payloads(cs[1..], write)
  {
  }

  lemma {:induction false} PayloadDecodes(c: Chunk, parse: string -> Option<Value>, write: Value -> string)
    requires InvertsOn(parse, write, EncodeChunk(c)) && Sendable(c)
    ensures var text := write(EncodeChunk(c));
            text != DONE && parse(text).Some? && DecodeChunk(parse(text).value) == Some(c)
  {
    ChunkDecodes(c);
  }

  lemma {:induction false} PayloadsDecode(cs: seq<Chunk>, parse: string -> Option<Value>, write: Value -> string)
    requires Inverts(parse, write, cs) && forall k :: 0 <= k < |cs| ==> Sendable(cs[k])
    ensures Chunks(Payloads(cs, write) + [DONE], parse) == Some(cs)
    decreases |cs|
  {
    if cs == [] {
      assert (Payloads(cs, write) + [DONE])[0] == DONE;
    } else {
      InvertsParts(parse, write, cs);
      assert forall k :: 0 <= k < |cs[1..]| ==> cs[1..][k] == cs[k + 1];
      PayloadsDecode(cs[1..], parse, write);
      OneMorePayload(cs, parse, write);
    }
  }

  lemma {:induction false} InvertsParts(parse: string -> Option<Value>, write: Value -> string, cs: seq<Chunk>)
    requires Inverts(parse, write, cs) && cs != []
    ensures InvertsOn(parse, write, EncodeChunk(cs[0])) && Inverts(parse, write, cs[1..])
  {
    forall k | 0 <= k < |cs[1..]|
      ensures InvertsOn(parse, write, EncodeChunk(cs[1..][k]))
    {
      assert cs[1..][k] == cs[k + 1];
    }
  }

  lemma {:induction false} OneMorePayload(cs: seq<Chunk>, parse: string -> Option<Value>, write: Value -> string)
    requires cs != [] && InvertsOn(parse, write, EncodeChunk(cs[0])) && Sendable(cs[0])
    requires Chunks(Payloads(cs[1..], write) + [DONE], parse) == Some(cs[1..])
    ensures Chunks(Payloads(cs, write) + [DONE], parse) == Some(cs)
  {
    var text, rest := write(EncodeChunk(cs[0])), Payloads(cs[1..], write) + [DONE];
    PayloadsCons(cs, write);
    assert Payloads(cs, write) + [DONE] == [text] + rest;
    PayloadDecodes(cs[0], parse, write);
    OneMoreChunk(text, rest, parse, cs[0]);
    assert cs == [cs[0]] + cs[1..];
  }

  lemma {:induction false} OneMoreChunk(text: string, rest: seq<string>, parse: string -> Option<Value>, c: Chunk)
    requires text != DONE && parse(text).Some? && DecodeChunk(parse(text).value) == Some(c)
    ensures Chunks([text] + rest, parse) == Ahead([c], Chunks(rest, parse))
  {
    assert ([text] + rest)[1..] == rest;
  }

  /**
   * End to end: a turn cut into deltas, printed, framed as server-sent events and read back is the
   * same turn, for every cut, every interleaving and both ways of writing a data line.
   */
  lemma {:induction false} StreamedTurnIsReadBack(
      cs: seq<Chunk>, t: Whole, parse: string -> Option<Value>, write: Value -> string, spaced: string -> bool)
    requires Cuts(cs, t)
    requires Inverts(parse, write, cs) && forall k :: 0 <= k < |cs| ==> Sendable(cs[k])
    ensures Read(Events(Framed(Payloads(cs, write), spaced), []), parse) == Some(Sent(t))
  {
    assert forall k :: 0 <= k < |cs| ==> InvertsOn(parse, write, EncodeChunk(cs[k]));
    FramingRoundTrip(Payloads(cs, write), spaced);
    PayloadsDecode(cs, parse, write);
    ReadingInvertsCutting(cs, t);
  }

  // ---- with the JSON writer and reader themselves

  lemma {:induction false} OneLine(s: string)
    requires forall i :: 0 <= i < |s| ==> s[i] != '\n'
    ensures SplitNewlines(s) == [s]
    decreases |s|
  {
    if s != "" {
      var n := |s| - 1;
      OneLine(s[..n]);
      assert s == s[..n] + [s[n]];
    }
  }

  lemma {:induction false} ObjectStarts(v: Value, floats: JsonValues.Floats)
    requires v.Obj? && JsonValues.Writable(v, floats)
    ensures JsonValues.Write(v, floats) != "" && JsonValues.Write(v, floats)[0] == '{'
  {
  }

  lemma {:induction false} JsonInvertsOn(v: Value, floats: JsonValues.Floats)
    requires v.Obj? && JsonValues.Writable(v, floats)
    ensures InvertsOn(JsonValues.Parser(floats), JsonValues.Writer(floats), v)
  {
    JsonValues.ParseInvertsWrite(v, floats);
    JsonValues.ValueComesBack(v, floats);
    JsonText.DumpIsPrintable(JsonValues.ToDocument(v, floats));
    ObjectStarts(v, floats);
    OneLine(JsonValues.Write(v, floats));
  }

  // Fractional usage counts are read back from their text.
  predicate WritableUsage(c: Chunk, floats: JsonValues.Floats) {
    c.terminal.Some? ==> JsonValues.Writable(Obj(c.terminal.value.usage), floats)
  }

  lemma {:induction false} ChunkIsWritable(c: Chunk, floats: JsonValues.Floats)
    requires WritableUsage(c, floats)
    ensures JsonValues.Writable(EncodeChunk(c), floats)
  {
    var fragments := EncodeFragments(c.fragments);
    forall i | 0 <= i < |fragments|
      ensures JsonValues.Writable(fragments[i], floats)
    {
      FragmentIsWritable(c.fragments[i], floats);
    }
    assert JsonValues.Writable(List(fragments), floats);
    ChoiceIsWritable(c, floats);
    assert JsonValues.Writable(List([EncodeChoice(c)]), floats);
  }

  lemma {:induction false} FragmentIsWritable(f: Fragment, floats: JsonValues.Floats)
    ensures JsonValues.Writable(EncodeFragment(f), floats)
  {
    var named := map["name" := OrNull(f.name), "arguments" := OrNull(f.arguments)];
    assert forall k :: k in named ==> JsonValues.Writable(named[k], floats);
  }

  lemma {:induction false} ChoiceIsWritable(c: Chunk, floats: JsonValues.Floats)
    requires JsonValues.Writable(List(EncodeFragments(c.fragments)), floats)
    ensures JsonValues.Writable(EncodeChoice(c), floats)
  {
    var delta := EncodeDelta(c).fields;
    assert forall k :: k in delta ==> JsonValues.Writable(delta[k], floats);
    assert JsonValues.Writable(EncodeDelta(c), floats);
  }

  /**
   * End to end with the JSON text that Python writes: chunks printed by json.dumps, framed, read line
   * by line and parsed by json.loads are the turn they were cut from.
   */
  lemma {:induction false} PrintedTurnIsReadBack(cs: seq<Chunk>, t: Whole, floats: JsonValues.Floats, spaced: string -> bool)
    requires Cuts(cs, t)
    requires forall k :: 0 <= k < |cs| ==> Sendable(cs[k]) && WritableUsage(cs[k], floats)
    ensures var payloads := Payloads(cs, JsonValues.Writer(floats));
            Read(Events(Framed(payloads, spaced), []), JsonValues.Parser(floats)) == Some(Sent(t))
  {
    forall k | 0 <= k < |cs|
      ensures InvertsOn(JsonValues.Parser(floats), JsonValues.Writer(floats), EncodeChunk(cs[k]))
    {
      ChunkIsWritable(cs[k], floats);
      JsonInvertsOn(EncodeChunk(cs[k]), floats);
    }
    StreamedTurnIsReadBack(cs, t, JsonValues.Parser(floats), JsonValues.Writer(floats), spaced);
  }
}
