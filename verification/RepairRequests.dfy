/**
 * How a repair request is read: what a numbered line is, which lines belong to which defect, and what
 * the proposed repairs say.
 */
module RepairRequests {
  import opened Results
  import opened AppSpecs
  import opened Texts
  import opened DeliveryPlans
  import opened DeliverySuggestions
  import opened RepairPlans

  // What the digit class of a regular expression never holds.
  ghost predicate Digits(digit: char -> bool) {
    forall c :: digit(c) ==> !IsSpace(c) && c !in {'-', '*', '.', ')', '\U{3001}'}
  }

  ghost predicate Blank(s: string) {
    forall i :: 0 <= i < |s| ==> IsSpace(s[i])
  }

  // The line is whitespace, perhaps a bullet with whitespace, one or two digits, a delimiter, the rest.
  ghost predicate NumberedAs(line: string, lead: string, bullet: string, number: string, delimiter: char, rest: string, digit: char -> bool) {
    && line == lead + bullet + number + [delimiter] + rest
    && Blank(lead) && (bullet == "" || ((bullet[0] == '-' || bullet[0] == '*') && Blank(bullet[1..])))
    && 1 <= |number| <= 2 && (forall i :: 0 <= i < |number| ==> digit(number[i])) && delimiter in {'.', ')', '\U{3001}'}
  }

  lemma {:induction false} StripLeftParts(s: string) returns (lead: string)
    ensures s == lead + StripLeft(s) && Blank(lead)
    ensures StripLeft(s) == "" || !IsSpace(StripLeft(s)[0])
  {
    lead := "";
    if s != "" && IsSpace(s[0]) {
      var more := StripLeftParts(s[1..]);
      lead := [s[0]] + more;
      assert s == [s[0]] + s[1..];
    }
  }

  lemma {:induction false} StripLeftOf(lead: string, s: string)
    requires Blank(lead) && (s == "" || !IsSpace(s[0]))
    ensures StripLeft(lead + s) == s
  {
    if lead != "" {
      assert (lead + s)[1..] == lead[1..] + s;
      StripLeftOf(lead[1..], s);
    } else {
      assert lead + s == s;
    }
  }

  lemma {:induction false} NumberIff(s: string, digit: char -> bool, number: string, delimiter: char, rest: string)
    requires Digits(digit) && s == number + [delimiter] + rest
    requires 1 <= |number| <= 2 && (forall i :: 0 <= i < |number| ==> digit(number[i])) && delimiter in {'.', ')', '\U{3001}'}
    ensures AfterNumber(s, digit) == Some(rest)
  {
    assert s[|number|] == delimiter && s[|number| + 1..] == rest && s[0] == number[0];
    if |number| == 2 {
      assert s[1] == number[1];
    }
  }

  /** A line that is numbered in this way is recognised, with the text behind the delimiter. */
  lemma {:induction false} NumberedIsRead(line: string, lead: string, bullet: string, number: string, delimiter: char, rest: string, digit: char -> bool)
    requires Digits(digit) && NumberedAs(line, lead, bullet, number, delimiter, rest, digit)
    ensures AfterNumber(AfterMarker(line), digit) == Some(rest)
  {
    var tail := number + [delimiter] + rest;
    assert tail[0] == number[0];
    assert line == lead + (bullet + tail);
    if bullet == "" {
      assert bullet + tail == tail;
      StripLeftOf(lead, tail);
    } else {
      assert (bullet + tail)[0] == bullet[0] && (bullet + tail)[1..] == bullet[1..] + tail;
      assert !IsSpace('-') && !IsSpace('*');
      StripLeftOf(lead, bullet + tail);
      StripLeftOf(bullet[1..], tail);
    }
    NumberIff(tail, digit, number, delimiter, rest);
  }

  /** And only such a line is. */
  lemma {:induction false} OnlyNumberedIsRead(line: string, digit: char -> bool)
    returns (lead: string, bullet: string, number: string, delimiter: char)
    requires AfterNumber(AfterMarker(line), digit).Some?
    ensures NumberedAs(line, lead, bullet, number, delimiter, AfterNumber(AfterMarker(line), digit).value, digit)
  {
    lead := StripLeftParts(line);
    var s := StripLeft(line);
    bullet := BulletOf(s);
    number, delimiter := NumberOf(AfterMarker(line), digit);
    var rest := AfterNumber(AfterMarker(line), digit).value;
    JoinParts(lead, bullet, number, delimiter, rest);
  }

  lemma {:induction false} JoinParts(lead: string, bullet: string, number: string, delimiter: char, rest: string)
    ensures lead + (bullet + (number + [delimiter] + rest)) == lead + bullet + number + [delimiter] + rest
  {
  }

  lemma {:induction false} BulletOf(s: string) returns (bullet: string)
    requires s == "" || !IsSpace(s[0])
    ensures s == bullet + if s != "" && (s[0] == '-' || s[0] == '*') then StripLeft(s[1..]) else s
    ensures bullet == "" || ((bullet[0] == '-' || bullet[0] == '*') && Blank(bullet[1..]))
  {
    bullet := "";
    if s != "" && (s[0] == '-' || s[0] == '*') {
      var spaces := StripLeftParts(s[1..]);
      bullet := [s[0]] + spaces;
      assert bullet[1..] == spaces && s == [s[0]] + s[1..];
    } else {
      assert "" + s == s;
    }
  }

  lemma {:induction false} NumberOf(s: string, digit: char -> bool) returns (number: string, delimiter: char)
    requires AfterNumber(s, digit).Some?
    ensures s == number + [delimiter] + AfterNumber(s, digit).value
    ensures 1 <= |number| <= 2 && (forall i :: 0 <= i < |number| ==> digit(number[i])) && delimiter in {'.', ')', '\U{3001}'}
  {
    var n := if |s| >= 2 && digit(s[0]) && IsDelimiter(s[1]) then 1 else 2;
    number, delimiter := s[..n], s[n];
  }

  /** A numbered line opens a defect with its text, less the whitespace in front of it. */
  lemma {:induction false} NumberedTextMeans(line: string, digit: char -> bool)
    ensures var rest := AfterNumber(AfterMarker(line), digit);
            && (Numbered(line, digit).Some? <==> rest.Some? && rest.value != "")
            && (rest.Some? && !Blank(rest.value) ==> Numbered(line, digit) == Some(StripLeft(rest.value)))
            && (Numbered(line, digit).Some? ==> rest.Some? && Words(Numbered(line, digit).value) == Words(rest.value))
  {
    var rest := AfterNumber(AfterMarker(line), digit);
    if rest.Some? {
      StripLeftKeepsWords(rest.value);
      var lead := StripLeftParts(rest.value);
      if StripLeft(rest.value) == "" && rest.value != "" {
        assert rest.value == lead;
        assert IsSpace(rest.value[|rest.value| - 1]);
        assert Words([rest.value[|rest.value| - 1]]) == [];
      }
    }
  }

  // ---------------------------------------------------------------- the defects

  // The numbered lines, first to last.
  ghost function Openings(lines: seq<string>, digit: char -> bool): seq<nat> {
    if lines == [] then []
    else
      var n := |lines| - 1;
      Openings(lines[..n], digit) + if Numbered(lines[n], digit).Some? then [n] else []
  }

  // The words from line a up to line b, the number of the first one left out.
  ghost function DefectText(lines: seq<string>, a: nat, b: nat, digit: char -> bool): seq<string>
    requires a < b <= |lines| && Numbered(lines[a], digit).Some?
  {
    Words(Numbered(lines[a], digit).value) + WordsOf(lines[a + 1..b])
  }

  // Where defect k ends: at the next numbered line, or with the request.
  ghost function EndOf(starts: seq<nat>, n: nat, k: nat): nat
    requires k < |starts|
  {
    if k + 1 < |starts| then starts[k + 1] else n
  }

  // The pieces of defect k have the words of its lines.
  ghost predicate Holds(lines: seq<string>, starts: seq<nat>, groups: seq<seq<string>>, digit: char -> bool, k: nat) {
    && k < |groups| == |starts| && starts[k] < EndOf(starts, |lines|, k) <= |lines| && Numbered(lines[starts[k]], digit).Some?
    && WordsOf(groups[k]) == DefectText(lines, starts[k], EndOf(starts, |lines|, k), digit)
  }

  ghost predicate AllHold(lines: seq<string>, starts: seq<nat>, groups: seq<seq<string>>, digit: char -> bool) {
    |groups| == |starts| && forall k: nat :: k < |starts| ==> Holds(lines, starts, groups, digit, k)
  }

  lemma {:induction false} SameText(front: seq<string>, line: string, a: nat, b: nat, digit: char -> bool)
    requires a < b <= |front| && Numbered(front[a], digit).Some?
    ensures (front + [line])[a] == front[a]
    ensures DefectText(front + [line], a, b, digit) == DefectText(front, a, b, digit)
  {
    assert (front + [line])[a + 1..b] == front[a + 1..b];
  }

  lemma {:induction false} MoreText(front: seq<string>, line: string, a: nat, digit: char -> bool)
    requires a < |front| && Numbered(front[a], digit).Some?
    ensures (front + [line])[a] == front[a]
    ensures DefectText(front + [line], a, |front| + 1, digit) == DefectText(front, a, |front|, digit) + Words(line)
  {
    var n := |front|;
    assert (front + [line])[a + 1..n + 1] == front[a + 1..n] + [line];
    WordsOfSnoc(front[a + 1..n], line);
    Regroup(Words(Numbered(front[a], digit).value), WordsOf(front[a + 1..n]), Words(line));
  }

  lemma {:induction false} FirstText(front: seq<string>, line: string, digit: char -> bool)
    requires Numbered(line, digit).Some?
    ensures (front + [line])[|front|] == line
    ensures DefectText(front + [line], |front|, |front| + 1, digit) == Words(Numbered(line, digit).value)
  {
    var n := |front|;
    assert (front + [line])[n + 1..n + 1] == [];
    assert Words(Numbered(line, digit).value) + WordsOf([]) == Words(Numbered(line, digit).value);
  }

  lemma {:induction false} Unfold(front: seq<string>, line: string, digit: char -> bool)
    ensures Openings(front + [line], digit) == Openings(front, digit) + if Numbered(line, digit).Some? then [|front|] else []
    ensures Defects(front + [line], digit) == AddLine(Defects(front, digit), line, Numbered(line, digit))
  {
    assert (front + [line])[..|front|] == front;
  }

  // A numbered line closes the last defect and opens one of its own.
  lemma {:induction false} NumberedLineMore(
      front: seq<string>, line: string, starts: seq<nat>, groups: seq<seq<string>>, digit: char -> bool, k: nat)
    requires AllHold(front, starts, groups, digit) && Numbered(line, digit).Some? && k <= |starts|
    ensures Holds(front + [line], starts + [|front|], groups + [[Numbered(line, digit).value]], digit, k)
  {
    if k == |starts| {
      NewDefect(line, Numbered(line, digit).value);
      FirstText(front, line, digit);
    } else {
      assert Holds(front, starts, groups, digit, k);
      SameText(front, line, starts[k], EndOf(starts, |front|, k), digit);
    }
  }

  // Any other line belongs to the last defect.
  lemma {:induction false} OtherLineMore(
      front: seq<string>, line: string, starts: seq<nat>, groups: seq<seq<string>>, grown: seq<seq<string>>, digit: char -> bool, k: nat)
    requires AllHold(front, starts, groups, digit) && k < |starts| && |grown| == |groups|
    requires grown[..|groups| - 1] == groups[..|groups| - 1]
    requires WordsOf(grown[|groups| - 1]) == WordsOf(groups[|groups| - 1]) + Words(line)
    ensures Holds(front + [line], starts, grown, digit, k)
  {
    assert Holds(front, starts, groups, digit, k);
    if k == |starts| - 1 {
      MoreText(front, line, starts[k], digit);
    } else {
      assert grown[k] == grown[..|groups| - 1][k] && groups[k] == groups[..|groups| - 1][k];
      SameText(front, line, starts[k], EndOf(starts, |front|, k), digit);
    }
  }

  lemma {:induction false} NewDefect(line: string, text: string)
    ensures WordsOf([text]) == Words(text)
  {
    WordsOfSnoc([], text);
    assert [] + [text] == [text];
  }

  lemma {:induction false} LastDefectGrows(groups: seq<seq<string>>, line: string)
    requires groups != []
    ensures var grown, m := AddLine(groups, line, None), |groups| - 1;
            |grown| == |groups| && grown[..m] == groups[..m] && WordsOf(grown[m]) == WordsOf(groups[m]) + Words(line)
  {
    var m := |groups| - 1;
    StripKeepsWords(line);
    if Strip(line) != "" {
      WordsOfSnoc(groups[m], Strip(line));
    }
  }

  /**
   * There is one defect for each numbered line, in their order, with the words of that line and of all
   * lines up to the next numbered one.
   */
  lemma {:induction false} DefectsMean(lines: seq<string>, digit: char -> bool)
    ensures AllHold(lines, Openings(lines, digit), Defects(lines, digit), digit)
    decreases |lines|
  {
    if lines != [] {
      var front, line := lines[..|lines| - 1], lines[|lines| - 1];
      DefectsMean(front, digit);
      assert lines == front + [line];
      Unfold(front, line, digit);
      OneLineMore(front, line, Openings(front, digit), Defects(front, digit), digit);
    }
  }

  lemma {:induction false} OneLineMore(
      front: seq<string>, line: string, starts: seq<nat>, groups: seq<seq<string>>, digit: char -> bool)
    requires AllHold(front, starts, groups, digit)
    ensures var numbered := Numbered(line, digit);
            AllHold(front + [line], starts + (if numbered.Some? then [|front|] else []), AddLine(groups, line, numbered), digit)
  {
    var numbered := Numbered(line, digit);
    if numbered.Some? {
      forall k: nat | k <= |starts|
        ensures Holds(front + [line], starts + [|front|], groups + [[numbered.value]], digit, k)
      {
        NumberedLineMore(front, line, starts, groups, digit, k);
      }
    } else {
      assert starts + [] == starts;
      if groups != [] {
        LastDefectGrows(groups, line);
      }
      forall k: nat | k < |starts|
        ensures Holds(front + [line], starts, AddLine(groups, line, None), digit, k)
      {
        OtherLineMore(front, line, starts, groups, AddLine(groups, line, None), digit, k);
      }
    }
  }

  // The target says in one line what defect k says.
  ghost predicate SaysDefect(lines: seq<string>, starts: seq<nat>, digit: char -> bool, k: nat, target: string) {
    && k < |starts| && starts[k] < EndOf(starts, |lines|, k) <= |lines| && Numbered(lines[starts[k]], digit).Some?
    && SingleSpaced(target) && Words(target) == DefectText(lines, starts[k], EndOf(starts, |lines|, k), digit)
  }

  lemma {:induction false} MergedSays(lines: seq<string>, starts: seq<nat>, groups: seq<seq<string>>, digit: char -> bool, k: nat)
    requires Holds(lines, starts, groups, digit, k)
    ensures SaysDefect(lines, starts, digit, k, Merged(groups)[k])
  {
    NormalizedIsSingleSpaced(Join(groups[k]));
    NormalizeKeepsWords(Join(groups[k]));
    WordsOfJoined(groups[k]);
  }

  /** One target for each defect if there are 1 to 20 of them, and the whole request otherwise. */
  lemma {:induction false} TargetsMean(content: string, digit: char -> bool)
    ensures var lines, targets := SplitLines(Strip(content)), Targets(content, digit);
            var starts := Openings(lines, digit);
            if 1 <= |starts| <= 20 then
              |targets| == |starts| && forall k: nat :: k < |targets| ==> SaysDefect(lines, starts, digit, k, targets[k])
            else |targets| == 1 && SingleSpaced(targets[0]) && Words(targets[0]) == Words(content)
  {
    var lines := SplitLines(Strip(content));
    var starts, groups := Openings(lines, digit), Defects(lines, digit);
    DefectsMean(lines, digit);
    if 1 <= |starts| <= 20 {
      forall k: nat | k < |starts|
        ensures SaysDefect(lines, starts, digit, k, Merged(groups)[k])
      {
        assert Holds(lines, starts, groups, digit, k);
        MergedSays(lines, starts, groups, digit, k);
      }
    } else {
      NormalizedIsSingleSpaced(content);
      NormalizeKeepsWords(content);
    }
  }

  // ---------------------------------------------------------------- the repairs

  /**
   * A proposed repair is a repair item that quotes its target as title and as its one acceptance text,
   * links and depends on nothing, and says what to deliver.  Texts of 1 to 16,000 characters are usable.
   */
  lemma {:induction false} RepairMeans(targets: seq<string>, used: set<string>, items: seq<PlannedItem>, i: nat)
    requires RepairsFor(targets, used, items) && i < |items|
    ensures |items| == |targets| && items[i].kind == Repair && items[i].title == targets[i] && items[i].acceptance == [targets[i]]
    ensures items[i].requirementIds == [] && items[i].provisions == [] && items[i].dependsOn == [] && items[i].deliverables != []
    ensures items[i].id !in used && forall j :: 0 <= j < |items| && j != i ==> items[j].id != items[i].id
    ensures UsableText(targets[i]) <==> 1 <= |targets[i]| <= 16000
  {
    assert RepairAt(items[i], targets[i], used);
  }
}
