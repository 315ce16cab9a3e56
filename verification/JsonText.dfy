/**
 * JSON text as Python's json.dumps(value, ensure_ascii=False) writes it, and a reader for it.
 * A document keeps its members in order; a number keeps the text it is written as.
 */
module JsonText {
  import opened Results

  datatype Document =
    | Nothing
    | Flag(b: bool)
    | Number(text: string)
    | Text(s: string)
    | List(items: seq<Document>)
    | Object(members: seq<(string, Document)>)

  // ---------------------------------------------------------------- writing

  function HexDigit(d: nat): char
    requires d < 16
  {
    "0123456789abcdef"[d]
  }

  // The two-character escapes, if the character has one.
  function Short(c: char): Option<char> {
    if c == '\"' then Some('\"') else if c == '\\' then Some('\\')
    else if c == '\n' then Some('n') else if c == '\r' then Some('r') else if c == '\t' then Some('t')
    else if c as int == 8 then Some('b') else if c as int == 12 then Some('f')
    else None
  }

  function EscapeChar(c: char): (r: string)
    ensures 1 <= |r| <= 6
  {
    if Short(c).Some? then ['\\', Short(c).value]
    else if c as int < 32 then ['\\', 'u', '0', '0', HexDigit(c as int / 16), HexDigit(c as int % 16)]
    else [c]
  }

  function Escape(s: string): (r: string)
    ensures |s| <= |r| <= 6 * |s|
  {
    if s == "" then "" else EscapeChar(s[0]) + Escape(s[1..])
  }

  function Quoted(s: string): string {
    ['\"'] + Escape(s) + ['\"']
  }

  function Dumps(d: Document): string
    decreases d, 1, 0
  {
    match d
    case Nothing => "null"
    case Flag(b) => if b then "true" else "false"
    case Number(text) => text
    case Text(s) => Quoted(s)
    case List(items) => ['['] + DumpItems(d, 0)
    case Object(members) => ['{'] + DumpMembers(d, 0)
  }

  // The items from the i-th on, with the separator in front of each but the first.
  function DumpItems(d: Document, i: nat): string
    requires d.List? && i <= |d.items|
    decreases d, 0, |d.items| - i
  {
    if i == |d.items| then [']']
    else (if i == 0 then "" else ", ") + Dumps(d.items[i]) + DumpItems(d, i + 1)
  }

  function DumpMembers(d: Document, i: nat): string
    requires d.Object? && i <= |d.members|
    decreases d, 0, |d.members| - i
  {
    if i == |d.members| then ['}']
    else (if i == 0 then "" else ", ") + DumpMember(d, i) + DumpMembers(d, i + 1)
  }

  function DumpMember(d: Document, i: nat): string
    requires d.Object? && i < |d.members|
    decreases d, 0, 0
  {
    Quoted(d.members[i].0) + ": " + Dumps(d.members[i].1)
  }

  // ---------------------------------------------------------------- reading

  datatype Step<T> = Step(value: T, rest: string)

  predicate Starts(s: string, prefix: string) {
    |prefix| <= |s| && s[..|prefix|] == prefix
  }

  predicate IsNumberChar(c: char) {
    '0' <= c <= '9' || c in "+-.eE"
  }

  function NumberEnd(s: string): (n: nat)
    ensures n <= |s| && forall i :: 0 <= i < n ==> IsNumberChar(s[i])
    ensures n < |s| ==> !IsNumberChar(s[n])
  {
    if s == "" || !IsNumberChar(s[0]) then 0 else 1 + NumberEnd(s[1..])
  }

  function HexValue(c: char): Option<nat> {
    if '0' <= c <= '9' then Some(c as int - '0' as int)
    else if 'a' <= c <= 'f' then Some(c as int - 'a' as int + 10)
    else None
  }

  // What the escape behind a backslash stands for, and how many characters it takes.
  function Unescape(s: string): (r: Option<(char, nat)>)
    ensures r.Some? ==> 1 <= r.value.1 <= |s|
  {
    if s == "" then None
    else if s[0] in "\"\\/" then Some((s[0], 1))
    else if s[0] == 'n' then Some(('\n', 1)) else if s[0] == 'r' then Some(('\r', 1))
    else if s[0] == 't' then Some(('\t', 1)) else if s[0] == 'b' then Some((8 as char, 1))
    else if s[0] == 'f' then Some((12 as char, 1))
    else if Starts(s, "u00") && |s| >= 5 && HexValue(s[3]).Some? && HexValue(s[4]).Some? then
      Some(((16 * HexValue(s[3]).value + HexValue(s[4]).value) as char, 5))
    else None
  }

  // The characters up to the closing quote.
  function ReadChars(s: string): (r: Option<Step<string>>)
    ensures r.Some? ==> |r.value.rest| < |s|
    decreases |s|
  {
    if s == "" then None
    else if s[0] == '\"' then Some(Step("", s[1..]))
    else if s[0] == '\\' then
      var escape := Unescape(s[1..]);
      if escape.None? then None
      else
        var tail := ReadChars(s[1 + escape.value.1..]);
        if tail.None? then None else Some(Step([escape.value.0] + tail.value.value, tail.value.rest))
    else
      var tail := ReadChars(s[1..]);
      if tail.None? then None else Some(Step([s[0]] + tail.value.value, tail.value.rest))
  }

  function ReadWord(s: string, word: string, d: Document): (r: Option<Step<Document>>)
    requires word != ""
    ensures r.Some? ==> |r.value.rest| < |s|
  {
    if Starts(s, word) then Some(Step(d, s[|word|..])) else None
  }

  function ReadNumber(s: string): (r: Option<Step<Document>>)
    ensures r.Some? ==> |r.value.rest| < |s|
  {
    var n := NumberEnd(s);
    if n > 0 then Some(Step(Number(s[..n]), s[n..])) else None
  }

  function ReadText(s: string): (r: Option<Step<Document>>)
    ensures r.Some? ==> |r.value.rest| <= |s|
  {
    var chars := ReadChars(s);
    if chars.None? then None else Some(Step(Text(chars.value.value), chars.value.rest))
  }

  // The document that the text starts with, and what follows it.
  function Read(s: string): (r: Option<Step<Document>>)
    ensures r.Some? ==> |r.value.rest| < |s|
    decreases |s|, 0
  {
    if s == "" then None
    else if s[0] == 'n' then ReadWord(s, "null", Nothing)
    else if s[0] == 't' then ReadWord(s, "true", Flag(true))
    else if s[0] == 'f' then ReadWord(s, "false", Flag(false))
    else if s[0] == '\"' then ReadText(s[1..])
    else if s[0] == '[' then ReadList(s[1..])
    else if s[0] == '{' then ReadObject(s[1..])
    else ReadNumber(s)
  }

  function ReadList(s: string): (r: Option<Step<Document>>)
    ensures r.Some? ==> |r.value.rest| <= |s|
    decreases |s|, 3
  {
    if s != "" && s[0] == ']' then Some(Step(List([]), s[1..]))
    else
      var items := ReadItems(s);
      if items.None? then None else Some(Step(List(items.value.value), items.value.rest))
  }

  function ReadObject(s: string): (r: Option<Step<Document>>)
    ensures r.Some? ==> |r.value.rest| <= |s|
    decreases |s|, 3
  {
    if s != "" && s[0] == '}' then Some(Step(Object([]), s[1..]))
    else
      var members := ReadMembers(s);
      if members.None? then None else Some(Step(Object(members.value.value), members.value.rest))
  }

  function ReadItems(s: string): (r: Option<Step<seq<Document>>>)
    ensures r.Some? ==> |r.value.rest| < |s|
    decreases |s|, 1
  {
    var item := Read(s);
    if item.None? then None
    else if Starts(item.value.rest, "]") then Some(Step([item.value.value], item.value.rest[1..]))
    else if Starts(item.value.rest, ", ") then
      var tail := ReadItems(item.value.rest[2..]);
      if tail.None? then None else Some(Step([item.value.value] + tail.value.value, tail.value.rest))
    else None
  }

  function ReadMember(s: string): (r: Option<Step<(string, Document)>>)
    ensures r.Some? ==> |r.value.rest| < |s|
    decreases |s|, 1
  {
    if !Starts(s, ['\"']) then None
    else
      var key := ReadChars(s[1..]);
      if key.None? || !Starts(key.value.rest, ": ") then None
      else
        var value := Read(key.value.rest[2..]);
        if value.None? then None else Some(Step((key.value.value, value.value.value), value.value.rest))
  }

  function ReadMembers(s: string): (r: Option<Step<seq<(string, Document)>>>)
    ensures r.Some? ==> |r.value.rest| < |s|
    decreases |s|, 2
  {
    var member := ReadMember(s);
    if member.None? then None
    else if Starts(member.value.rest, ['}']) then Some(Step([member.value.value], member.value.rest[1..]))
    else if Starts(member.value.rest, ", ") then
      var tail := ReadMembers(member.value.rest[2..]);
      if tail.None? then None else Some(Step([member.value.value] + tail.value.value, tail.value.rest))
    else None
  }

  // The document that a whole text is.
  function Loads(s: string): Option<Document> {
    var r := Read(s);
    if r.Some? && r.value.rest == "" then Some(r.value.value) else None
  }

  // ---------------------------------------------------------------- reading inverts writing

  // Numbers are written with number characters only.
  predicate Plain(d: Document)
    decreases d
  {
    match d
    case Number(text) => text != "" && forall i :: 0 <= i < |text| ==> IsNumberChar(text[i])
    case List(items) => forall i :: 0 <= i < |items| ==> Plain(items[i])
    case Object(members) => forall i :: 0 <= i < |members| ==> Plain(members[i].1)
    case _ => true
  }

  predicate Ends(rest: string) {
    rest == "" || !IsNumberChar(rest[0])
  }

  lemma {:induction false} UnescapeInvertsEscape(c: char, rest: string)
    requires |EscapeChar(c)| > 1
    ensures EscapeChar(c)[0] == '\\'
    ensures Unescape((EscapeChar(c) + rest)[1..]) == Some((c, |EscapeChar(c)| - 1))
  {
    var s := (EscapeChar(c) + rest)[1..];
    if Short(c).Some? {
      assert s[0] == Short(c).value;
    } else {
      assert s[..3] == "u00" && s[3] == HexDigit(c as int / 16) && s[4] == HexDigit(c as int % 16);
      HexDigitHasValue(c as int / 16);
      HexDigitHasValue(c as int % 16);
    }
  }

  lemma {:induction false} HexDigitHasValue(d: nat)
    requires d < 16
    ensures HexValue(HexDigit(d)) == Some(d)
  {
    var digits := "0123456789abcdef";
    assert digits[0] == '0' && digits[1] == '1' && digits[2] == '2' && digits[3] == '3' && digits[4] == '4';
    assert digits[5] == '5' && digits[6] == '6' && digits[7] == '7' && digits[8] == '8' && digits[9] == '9';
    assert digits[10] == 'a' && digits[11] == 'b' && digits[12] == 'c' && digits[13] == 'd' && digits[14] == 'e';
  }

  /** A written string is read back, whatever follows it. */
  lemma {:induction false} CharsAreReadBack(s: string, rest: string)
    ensures ReadChars(Escape(s) + ['\"'] + rest) == Some(Step(s, rest))
    decreases |s|
  {
    var text := Escape(s) + ['\"'] + rest;
    if s == "" {
      assert text[1..] == rest;
    } else {
      assert s == [s[0]] + s[1..];
      var tail := Escape(s[1..]) + ['\"'] + rest;
      assert text == EscapeChar(s[0]) + tail;
      CharsAreReadBack(s[1..], rest);
      if |EscapeChar(s[0])| > 1 {
        UnescapeInvertsEscape(s[0], tail);
        assert text[1 + (|EscapeChar(s[0])| - 1)..] == tail;
      } else {
        assert text[0] == s[0] && text[1..] == tail;
      }
    }
  }

  lemma {:induction false} QuotedIsReadBack(s: string, rest: string)
    ensures Starts(Quoted(s) + rest, ['\"'])
    ensures ReadChars((Quoted(s) + rest)[1..]) == Some(Step(s, rest))
  {
    assert (Quoted(s) + rest)[1..] == Escape(s) + ['\"'] + rest;
    CharsAreReadBack(s, rest);
  }

  lemma {:induction false} NumberIsReadBack(text: string, rest: string)
    requires text != "" && (forall i :: 0 <= i < |text| ==> IsNumberChar(text[i])) && Ends(rest)
    ensures ReadNumber(text + rest) == Some(Step(Number(text), rest))
  {
    var s := text + rest;
    var n := NumberEnd(s);
    assert forall i :: 0 <= i < |text| ==> s[i] == text[i];
    assert rest != "" ==> s[|text|] == rest[0];
    assert s[..|text|] == text && s[|text|..] == rest;
  }

  lemma {:induction false} WordIsReadBack(word: string, d: Document, rest: string)
    requires word != ""
    ensures ReadWord(word + rest, word, d) == Some(Step(d, rest))
  {
    assert (word + rest)[..|word|] == word && (word + rest)[|word|..] == rest;
  }

  // What a written document starts with.
  lemma {:induction false} FirstChar(d: Document)
    requires Plain(d)
    ensures Dumps(d) != ""
    ensures var c := Dumps(d)[0];
            match d
            case Nothing => c == 'n'
            case Flag(b) => c == if b then 't' else 'f'
            case Number(_) => IsNumberChar(c)
            case Text(_) => c == '\"'
            case List(_) => c == '['
            case Object(_) => c == '{'
  {
  }

  /** Reading gives back every written document and what follows it. */
  lemma {:induction false} DocumentIsReadBack(d: Document, rest: string)
    requires Plain(d) && Ends(rest)
    ensures Read(Dumps(d) + rest) == Some(Step(d, rest))
    decreases d, 1, 0
  {
    match d
    case List(_) => ListIsReadBack(d, rest);
    case Object(_) => ObjectIsReadBack(d, rest);
    case _ => LeafIsReadBack(d, rest);
  }

  lemma {:induction false} LeafIsReadBack(d: Document, rest: string)
    requires !d.List? && !d.Object? && Plain(d) && Ends(rest)
    ensures Read(Dumps(d) + rest) == Some(Step(d, rest))
  {
    FirstChar(d);
    assert (Dumps(d) + rest)[0] == Dumps(d)[0];
    match d
    case Nothing => WordIsReadBack("null", d, rest);
    case Flag(b) => WordIsReadBack(if b then "true" else "false", d, rest);
    case Number(text) => NumberIsReadBack(text, rest);
    case Text(t) => QuotedIsReadBack(t, rest);
  }

  lemma {:induction false} ListIsReadBack(d: Document, rest: string)
    requires d.List? && Plain(d) && Ends(rest)
    ensures Read(Dumps(d) + rest) == Some(Step(d, rest))
    decreases d, 0, |d.items| + 2
  {
    assert Dumps(d) + rest == ['['] + (DumpItems(d, 0) + rest);
    BracketIsRead(DumpItems(d, 0) + rest);
    ListBodyIsReadBack(d, rest);
  }

  lemma {:induction false} BracketIsRead(s: string)
    ensures Read(['['] + s) == ReadList(s)
  {
    assert (['['] + s)[1..] == s;
  }

  lemma {:induction false} ItemsMakeList(s: string, items: seq<Document>, rest: string)
    requires ReadItems(s) == Some(Step(items, rest)) && s != "" && s[0] != ']'
    ensures ReadList(s) == Some(Step(List(items), rest))
  {
  }

  lemma {:induction false} ListBodyIsReadBack(d: Document, rest: string)
    requires d.List? && Plain(d) && Ends(rest)
    ensures ReadList(DumpItems(d, 0) + rest) == Some(Step(d, rest))
    decreases d, 0, |d.items| + 1
  {
    var s := DumpItems(d, 0) + rest;
    if d.items == [] {
      assert s[1..] == rest;
    } else {
      ItemsAreReadBack(d, 0, rest);
      FirstItem(d);
      assert d.items[0..] == d.items;
      ItemsMakeList(s, d.items, rest);
    }
  }

  lemma {:induction false} FirstItem(d: Document)
    requires d.List? && d.items != [] && Plain(d.items[0])
    ensures DumpItems(d, 0) == Items(d, 0) && DumpItems(d, 0) != "" && DumpItems(d, 0)[0] != ']'
  {
    FirstChar(d.items[0]);
  }

  lemma {:induction false} BraceIsRead(s: string)
    ensures Read(['{'] + s) == ReadObject(s)
  {
    assert (['{'] + s)[1..] == s;
  }

  lemma {:induction false} ObjectIsReadBack(d: Document, rest: string)
    requires d.Object? && Plain(d) && Ends(rest)
    ensures Read(Dumps(d) + rest) == Some(Step(d, rest))
    decreases d, 0, |d.members| + 3
  {
    assert Dumps(d) + rest == ['{'] + (DumpMembers(d, 0) + rest);
    BraceIsRead(DumpMembers(d, 0) + rest);
    BodyIsReadBack(d, rest);
  }

  lemma {:induction false} MembersMakeObject(s: string, members: seq<(string, Document)>, rest: string)
    requires ReadMembers(s) == Some(Step(members, rest)) && s != "" && s[0] != '}'
    ensures ReadObject(s) == Some(Step(Object(members), rest))
  {
  }

  lemma {:induction false} BodyIsReadBack(d: Document, rest: string)
    requires d.Object? && Plain(d) && Ends(rest)
    ensures ReadObject(DumpMembers(d, 0) + rest) == Some(Step(d, rest))
    decreases d, 0, |d.members| + 2
  {
    var s := DumpMembers(d, 0) + rest;
    if d.members == [] {
      assert s[1..] == rest;
    } else {
      MembersAreReadBack(d, 0, rest);
      FirstMember(d);
      assert d.members[0..] == d.members;
      MembersMakeObject(s, d.members, rest);
    }
  }

  lemma {:induction false} FirstMember(d: Document)
    requires d.Object? && d.members != []
    ensures DumpMembers(d, 0) == Members(d, 0) && DumpMembers(d, 0) != "" && DumpMembers(d, 0)[0] == '\"'
  {
  }

  // The items from the i-th on, without the separator in front of them.
  function Items(d: Document, i: nat): string
    requires d.List? && i < |d.items|
  {
    Dumps(d.items[i]) + DumpItems(d, i + 1)
  }

  function Members(d: Document, i: nat): string
    requires d.Object? && i < |d.members|
  {
    DumpMember(d, i) + DumpMembers(d, i + 1)
  }

  lemma {:induction false} LastItem(s: string, item: Document, rest: string)
    requires Read(s) == Some(Step(item, [']'] + rest))
    ensures ReadItems(s) == Some(Step([item], rest))
  {
    assert ([']'] + rest)[1..] == rest;
  }

  lemma {:induction false} OneMoreItem(s: string, item: Document, after: string, items: seq<Document>, rest: string)
    requires Read(s) == Some(Step(item, ", " + after)) && ReadItems(after) == Some(Step(items, rest))
    ensures ReadItems(s) == Some(Step([item] + items, rest))
  {
    assert (", " + after)[..2] == ", " && (", " + after)[2..] == after;
    assert (", " + after)[0] == ',';
  }

  lemma {:induction false} ItemsShape(d: Document, i: nat, rest: string) returns (after: string)
    requires d.List? && i < |d.items|
    ensures Items(d, i) + rest == Dumps(d.items[i]) + after && Ends(after)
    ensures i + 1 == |d.items| ==> after == [']'] + rest
    ensures i + 1 < |d.items| ==> after == ", " + (Items(d, i + 1) + rest)
  {
    after := DumpItems(d, i + 1) + rest;
  }

  lemma {:induction false} ItemsAreReadBack(d: Document, i: nat, rest: string)
    requires d.List? && Plain(d) && i < |d.items|
    ensures ReadItems(Items(d, i) + rest) == Some(Step(d.items[i..], rest))
    decreases d, 0, |d.items| - i
  {
    var after := ItemsShape(d, i, rest);
    DocumentIsReadBack(d.items[i], after);
    if i + 1 == |d.items| {
      LastItem(Items(d, i) + rest, d.items[i], rest);
      assert d.items[i..] == [d.items[i]];
    } else {
      ItemsAreReadBack(d, i + 1, rest);
      OneMoreItem(Items(d, i) + rest, d.items[i], Items(d, i + 1) + rest, d.items[i + 1..], rest);
      assert d.items[i..] == [d.items[i]] + d.items[i + 1..];
    }
  }

  lemma {:induction false} MemberIsReadBack(d: Document, i: nat, after: string)
    requires d.Object? && Plain(d) && i < |d.members| && Ends(after)
    ensures ReadMember(DumpMember(d, i) + after) == Some(Step(d.members[i], after))
    decreases d, 0, 0
  {
    var (key, value) := d.members[i];
    var tail := ": " + (Dumps(value) + after);
    assert DumpMember(d, i) + after == Quoted(key) + tail;
    QuotedIsReadBack(key, tail);
    assert tail[..2] == ": " && tail[2..] == Dumps(value) + after;
    DocumentIsReadBack(value, after);
  }

  lemma {:induction false} LastMember(s: string, member: (string, Document), rest: string)
    requires ReadMember(s) == Some(Step(member, ['}'] + rest))
    ensures ReadMembers(s) == Some(Step([member], rest))
  {
    assert (['}'] + rest)[1..] == rest;
  }

  lemma {:induction false} OneMoreMember(s: string, member: (string, Document), after: string,
                                         members: seq<(string, Document)>, rest: string)
    requires ReadMember(s) == Some(Step(member, ", " + after)) && ReadMembers(after) == Some(Step(members, rest))
    ensures ReadMembers(s) == Some(Step([member] + members, rest))
  {
    assert (", " + after)[..2] == ", " && (", " + after)[2..] == after;
    assert (", " + after)[0] == ',';
  }

  lemma {:induction false} MembersShape(d: Document, i: nat, rest: string) returns (after: string)
    requires d.Object? && i < |d.members|
    ensures Members(d, i) + rest == DumpMember(d, i) + after && Ends(after)
    ensures i + 1 == |d.members| ==> after == ['}'] + rest
    ensures i + 1 < |d.members| ==> after == ", " + (Members(d, i + 1) + rest)
  {
    after := DumpMembers(d, i + 1) + rest;
    if i + 1 < |d.members| {
      MembersUnfold(d, i + 1);
    }
  }

  lemma {:induction false} MembersUnfold(d: Document, i: nat)
    requires d.Object? && 0 < i < |d.members|
    ensures DumpMembers(d, i) == ", " + Members(d, i)
  {
  }

  lemma {:induction false} NextIsReadBack(d: Document, i: nat, rest: string) returns (after: string)
    requires d.Object? && Plain(d) && i < |d.members|
    ensures ReadMember(Members(d, i) + rest) == Some(Step(d.members[i], after))
    ensures i + 1 == |d.members| ==> after == ['}'] + rest
    ensures i + 1 < |d.members| ==> after == ", " + (Members(d, i + 1) + rest)
    decreases d, 0, 1
  {
    after := MembersShape(d, i, rest);
    MemberIsReadBack(d, i, after);
  }

  lemma {:induction false} MembersAreReadBack(d: Document, i: nat, rest: string)
    requires d.Object? && Plain(d) && i < |d.members|
    ensures ReadMembers(Members(d, i) + rest) == Some(Step(d.members[i..], rest))
    decreases d, 0, |d.members| - i + 1
  {
    var after := NextIsReadBack(d, i, rest);
    if i + 1 == |d.members| {
      LastMember(Members(d, i) + rest, d.members[i], rest);
      assert d.members[i..] == [d.members[i]];
    } else {
      MembersAreReadBack(d, i + 1, rest);
      OneMoreMember(Members(d, i) + rest, d.members[i], Members(d, i + 1) + rest, d.members[i + 1..], rest);
      assert d.members[i..] == [d.members[i]] + d.members[i + 1..];
    }
  }

  /** A whole written text is the text of exactly one document. */
  lemma {:induction false} LoadsInvertsDumps(d: Document)
    requires Plain(d)
    ensures Loads(Dumps(d)) == Some(d)
  {
    DocumentIsReadBack(d, "");
    assert Dumps(d) + "" == Dumps(d);
  }

  // ---------------------------------------------------------------- sizes

  lemma {:induction false} EscapeOfAppend(a: string, b: string)
    ensures Escape(a + b) == Escape(a) + Escape(b)
  {
    if a == "" {
      assert a + b == b;
    } else {
      assert (a + b)[1..] == a[1..] + b;
      EscapeOfAppend(a[1..], b);
    }
  }

  /** A longer prefix is written with more characters. */
  lemma {:induction false} LongerPrefixIsLonger(s: string, i: nat, j: nat)
    requires i <= j <= |s|
    ensures |Escape(s[..i])| + (j - i) <= |Escape(s[..j])|
  {
    assert s[..j] == s[..i] + s[i..j];
    EscapeOfAppend(s[..i], s[i..j]);
  }

  /** Replacing the value of one member changes the size by the difference of the two values. */
  lemma {:induction false} ReplacedMember(d: Document, k: nat, v: Document, i: nat)
    requires d.Object? && k < |d.members| && i <= |d.members|
    ensures var e := Object(d.members[k := (d.members[k].0, v)]);
            |DumpMembers(e, i)| == |DumpMembers(d, i)| + if i <= k then |Dumps(v)| - |Dumps(d.members[k].1)| else 0
    decreases |d.members| - i
  {
    if i < |d.members| {
      ReplacedMember(d, k, v, i + 1);
    }
  }

  /** No member is longer than the object. */
  lemma {:induction false} MemberFits(d: Document, k: nat, i: nat)
    requires d.Object? && i <= k < |d.members|
    ensures |Dumps(d.members[k].1)| <= |DumpMembers(d, i)|
    decreases k - i
  {
    if i < k {
      MemberFits(d, k, i + 1);
    }
  }

  // ---------------------------------------------------------------- one line

  // No control character: in particular no line break.
  predicate Printable(s: string) {
    forall i :: 0 <= i < |s| ==> s[i] as int >= 32
  }

  lemma {:induction false} EscapeIsPrintable(s: string)
    ensures Printable(Escape(s))
  {
    if s != "" {
      EscapeIsPrintable(s[1..]);
      CharIsPrintable(s[0]);
    }
  }

  lemma {:induction false} CharIsPrintable(c: char)
    ensures Printable(EscapeChar(c))
  {
    if Short(c).None? && c as int < 32 {
      HexDigitHasValue(c as int / 16);
      HexDigitHasValue(c as int % 16);
    }
  }

  /** A document is written on one line. */
  lemma {:induction false} DumpIsPrintable(d: Document)
    requires Plain(d)
    ensures Printable(Dumps(d))
    decreases d, 1, 0
  {
    match d
    case Text(s) => EscapeIsPrintable(s);
    case List(_) => ItemsArePrintable(d, 0);
    case Object(_) => MembersArePrintable(d, 0);
    case _ =>
  }

  lemma {:induction false} ItemsArePrintable(d: Document, i: nat)
    requires d.List? && Plain(d) && i <= |d.items|
    ensures Printable(DumpItems(d, i))
    decreases d, 0, |d.items| - i
  {
    if i < |d.items| {
      DumpIsPrintable(d.items[i]);
      ItemsArePrintable(d, i + 1);
    }
  }

  lemma {:induction false} MembersArePrintable(d: Document, i: nat)
    requires d.Object? && Plain(d) && i <= |d.members|
    ensures Printable(DumpMembers(d, i))
    decreases d, 0, |d.members| - i
  {
    if i < |d.members| {
      MemberIsPrintable(d, i);
      MembersArePrintable(d, i + 1);
    }
  }

  lemma {:induction false} MemberIsPrintable(d: Document, i: nat)
    requires d.Object? && Plain(d) && i < |d.members|
    ensures Printable(DumpMember(d, i))
    decreases d, 0, 0
  {
    EscapeIsPrintable(d.members[i].0);
    DumpIsPrintable(d.members[i].1);
  }
}
