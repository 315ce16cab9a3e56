/** Whitespace splitting and joining as Python's str.split() and " ".join() do it. */
module Texts {
  // Python's str.isspace on one character.
  predicate IsSpace(c: char) {
    var n := c as int;
    || 9 <= n <= 13 || 28 <= n <= 32 || n == 0x85 || n == 0xA0 || n == 0x1680
    || 0x2000 <= n <= 0x200A || n == 0x2028 || n == 0x2029 || n == 0x202F || n == 0x205F || n == 0x3000
  }

  predicate IsWord(w: string) {
    w != "" && forall i :: 0 <= i < |w| ==> !IsSpace(w[i])
  }

  // The length of the longest prefix without whitespace.
  function WordEnd(s: string): (n: nat)
    ensures n <= |s| && (forall i :: 0 <= i < n ==> !IsSpace(s[i])) && (n < |s| ==> IsSpace(s[n]))
  {
    if s == "" || IsSpace(s[0]) then 0 else 1 + WordEnd(s[1..])
  }

  function Words(s: string): (ws: seq<string>)
    ensures forall i :: 0 <= i < |ws| ==> IsWord(ws[i])
    decreases |s|
  {
    if s == "" then []
    else if IsSpace(s[0]) then Words(s[1..])
    else [s[..WordEnd(s)]] + Words(s[WordEnd(s)..])
  }

  function Join(ws: seq<string>): string {
    if ws == [] then "" else if |ws| == 1 then ws[0] else ws[0] + " " + Join(ws[1..])
  }

  // Collapses every run of whitespace to one blank and drops it at both ends.
  function Normalize(s: string): string {
    Join(Words(s))
  }

  lemma {:induction false} WordsOfJoin(ws: seq<string>)
    requires forall i :: 0 <= i < |ws| ==> IsWord(ws[i])
    ensures Words(Join(ws)) == ws
  {
    if |ws| == 1 {
      var w := ws[0];
      assert WordEnd(w) == |w| && w[..|w|] == w && w[|w|..] == "";
    } else if |ws| > 1 {
      var s, rest := Join(ws), Join(ws[1..]);
      WordsOfJoin(ws[1..]);
      assert s[|ws[0]|] == ' ';
      WordEndUnique(s, |ws[0]|);
      assert s[..|ws[0]|] == ws[0] && s[|ws[0]|..][1..] == rest;
    }
  }

  /** Normalising keeps the words. */
  lemma {:induction false} NormalizeKeepsWords(s: string)
    ensures Words(Normalize(s)) == Words(s)
  {
    WordsOfJoin(Words(s));
  }

  /** Normalising twice is normalising once. */
  lemma {:induction false} NormalizeIdempotent(s: string)
    ensures Normalize(Normalize(s)) == Normalize(s)
  {
    WordsOfJoin(Words(s));
  }

  // No whitespace but single blanks between words.
  ghost predicate SingleSpaced(s: string) {
    forall i :: 0 <= i < |s| && IsSpace(s[i]) ==> s[i] == ' ' && 0 < i < |s| - 1 && !IsSpace(s[i + 1])
  }

  lemma {:induction false} JoinIsSingleSpaced(ws: seq<string>)
    requires forall i :: 0 <= i < |ws| ==> IsWord(ws[i])
    ensures SingleSpaced(Join(ws)) && (ws != [] ==> Join(ws) != "" && !IsSpace(Join(ws)[0]))
  {
    if |ws| > 1 {
      var w, tail := ws[0], Join(ws[1..]);
      JoinIsSingleSpaced(ws[1..]);
      var s := Join(ws);
      forall i | 0 <= i < |s| && IsSpace(s[i])
        ensures s[i] == ' ' && 0 < i < |s| - 1 && !IsSpace(s[i + 1])
      {
        if i > |w| {
          assert s[i] == tail[i - |w| - 1];
        }
        assert forall k :: 0 <= k < |w| ==> s[k] == w[k];
      }
    }
  }

  /** A normalised text has no whitespace but single blanks between its words. */
  lemma {:induction false} NormalizedIsSingleSpaced(s: string)
    ensures SingleSpaced(Normalize(s))
  {
    JoinIsSingleSpaced(Words(s));
  }

  lemma {:induction false} WordsAppend(a: string, b: string)
    requires b == "" || IsSpace(b[0])
    ensures Words(a + b) == Words(a) + Words(b)
    decreases |a|
  {
    var s := a + b;
    if a == "" {
      assert s == b;
    } else if IsSpace(a[0]) {
      assert s[1..] == a[1..] + b;
      WordsAppend(a[1..], b);
    } else {
      var n := WordEnd(a);
      WordEndUnique(s, n);
      assert s[..n] == a[..n] && s[n..] == a[n..] + b;
      WordsAppend(a[n..], b);
    }
  }

  lemma {:induction false} WordEndUnique(s: string, n: nat)
    requires n <= |s| && (forall i :: 0 <= i < n ==> !IsSpace(s[i])) && (n < |s| ==> IsSpace(s[n]))
    ensures WordEnd(s) == n
  {
    if n > 0 {
      assert !IsSpace(s[0]);
      WordEndUnique(s[1..], n - 1);
    }
  }

  function WordsOf(texts: seq<string>): seq<string> {
    if texts == [] then [] else WordsOf(texts[..|texts| - 1]) + Words(texts[|texts| - 1])
  }

  lemma {:induction false} WordsOfSnoc(texts: seq<string>, t: string)
    ensures WordsOf(texts + [t]) == WordsOf(texts) + Words(t)
  {
    assert (texts + [t])[..|texts|] == texts;
  }

  lemma {:induction false} WordsOfAppend(a: seq<string>, b: seq<string>)
    ensures WordsOf(a + b) == WordsOf(a) + WordsOf(b)
    decreases |b|
  {
    if b == [] {
      assert a + b == a;
    } else {
      var n := |b| - 1;
      var front, last := b[..n], b[n];
      WordsOfAppend(a, front);
      WordsOfSnoc(a + front, last);
      WordsOfSnoc(front, last);
      assert b == front + [last];
      assert a + b == (a + front) + [last];
      Regroup(WordsOf(a), WordsOf(front), Words(last));
    }
  }

  lemma {:induction false} Regroup(a: seq<string>, b: seq<string>, c: seq<string>)
    ensures (a + b) + c == a + (b + c)
  {
  }

  /** Joining with blanks keeps every word of the parts, in order. */
  lemma {:induction false} WordsOfJoined(texts: seq<string>)
    ensures Words(Join(texts)) == WordsOf(texts)
    decreases |texts|
  {
    if |texts| == 1 {
      assert WordsOf(texts[..0]) == [];
    } else if |texts| > 1 {
      var rest := texts[1..];
      WordsOfJoined(rest);
      assert " " + Join(rest) == [' '] + Join(rest) && ([' '] + Join(rest))[1..] == Join(rest);
      assert Words(" " + Join(rest)) == Words(Join(rest));
      WordsAppend(texts[0], " " + Join(rest));
      assert texts[0] + " " + Join(rest) == texts[0] + (" " + Join(rest));
      assert texts == [texts[0]] + rest;
      WordsOfCons(texts[0], rest);
    }
  }

  lemma {:induction false} WordsOfCons(t: string, texts: seq<string>)
    ensures WordsOf([t] + texts) == Words(t) + WordsOf(texts)
  {
    WordsOfSnoc([], t);
    assert [] + [t] == [t];
    WordsOfAppend([t], texts);
  }

  // Python's str.strip().
  function StripLeft(s: string): (r: string)
    ensures |r| <= |s|
  {
    if s != "" && IsSpace(s[0]) then StripLeft(s[1..]) else s
  }

  function StripRight(s: string): (r: string)
    ensures |r| <= |s|
  {
    if s != "" && IsSpace(s[|s| - 1]) then StripRight(s[..|s| - 1]) else s
  }

  function Strip(s: string): string {
    StripRight(StripLeft(s))
  }

  lemma {:induction false} StripLeftKeepsWords(s: string)
    ensures Words(StripLeft(s)) == Words(s)
  {
    if s != "" && IsSpace(s[0]) {
      StripLeftKeepsWords(s[1..]);
    }
  }

  lemma {:induction false} StripRightKeepsWords(s: string)
    ensures Words(StripRight(s)) == Words(s)
    decreases |s|
  {
    if s != "" && IsSpace(s[|s| - 1]) {
      var n := |s| - 1;
      StripRightKeepsWords(s[..n]);
      WordsAppend(s[..n], [s[n]]);
      assert s == s[..n] + [s[n]] && Words([s[n]]) == [];
    }
  }

  lemma {:induction false} StripKeepsWords(s: string)
    ensures Words(Strip(s)) == Words(s)
  {
    StripLeftKeepsWords(s);
    StripRightKeepsWords(StripLeft(s));
  }

  // The line boundaries of Python's str.splitlines().
  predicate IsBreak(c: char) {
    var n := c as int;
    10 <= n <= 13 || 28 <= n <= 30 || n == 0x85 || n == 0x2028 || n == 0x2029
  }

  function LineEnd(s: string): (n: nat)
    ensures n <= |s| && (forall i :: 0 <= i < n ==> !IsBreak(s[i])) && (n < |s| ==> IsBreak(s[n]))
  {
    if s == "" || IsBreak(s[0]) then 0 else 1 + LineEnd(s[1..])
  }

  function SplitLines(s: string): (lines: seq<string>)
    ensures forall i, j :: 0 <= i < |lines| && 0 <= j < |lines[i]| ==> !IsBreak(lines[i][j])
    decreases |s|
  {
    if s == "" then []
    else
      var n := LineEnd(s);
      if n == |s| then [s]
      else if s[n] == '\r' && n + 1 < |s| && s[n + 1] == '\n' then [s[..n]] + SplitLines(s[n + 2..])
      else [s[..n]] + SplitLines(s[n + 1..])
  }

  /** Splitting into lines loses no word. */
  lemma {:induction false} SplitLinesKeepsWords(s: string)
    ensures WordsOf(SplitLines(s)) == Words(s)
    decreases |s|
  {
    if s != "" {
      if LineEnd(s) == |s| {
        WordsOfSnoc([], s);
        assert [] + [s] == [s];
      } else {
        var n, skip := FirstLine(s);
        SplitLinesKeepsWords(s[n + skip..]);
        WordsOfCons(s[..n], SplitLines(s[n + skip..]));
        WordsAcross(s, n, skip);
      }
    }
  }

  lemma {:induction false} FirstLine(s: string) returns (n: nat, skip: nat)
    requires LineEnd(s) < |s|
    ensures 1 <= skip <= 2 && n + skip <= |s| && forall i :: n <= i < n + skip ==> IsSpace(s[i])
    ensures SplitLines(s) == [s[..n]] + SplitLines(s[n + skip..])
  {
    n := LineEnd(s);
    skip := if s[n] == '\r' && n + 1 < |s| && s[n + 1] == '\n' then 2 else 1;
  }

  lemma {:induction false} WordsAcross(s: string, n: nat, skip: nat)
    requires 1 <= skip <= 2 && n + skip <= |s| && forall i :: n <= i < n + skip ==> IsSpace(s[i])
    ensures Words(s) == Words(s[..n]) + Words(s[n + skip..])
  {
    var tail := s[n..];
    assert s == s[..n] + tail;
    WordsAppend(s[..n], tail);
    assert tail[1..] == s[n + 1..];
    if skip == 2 {
      assert s[n + 1..][1..] == s[n + 2..];
    }
  }

  ghost predicate OccursAt(part: string, s: string, i: nat) {
    i + |part| <= |s| && s[i..i + |part|] == part
  }

  ghost predicate Occurs(part: string, s: string) {
    exists i: nat :: OccursAt(part, s, i)
  }

  // Python's `part in s`.
  predicate Contains(s: string, part: string)
    ensures Contains(s, part) <==> Occurs(part, s)
    decreases |s|
  {
    OccursUnfolds(part, s);
    part <= s || (s != "" && Contains(s[1..], part))
  }

  lemma {:induction false} OccursUnfolds(part: string, s: string)
    ensures Occurs(part, s) <==> part <= s || (s != "" && Occurs(part, s[1..]))
  {
    if part <= s {
      assert OccursAt(part, s, 0);
    }
    if s != "" && Occurs(part, s[1..]) {
      var i: nat :| OccursAt(part, s[1..], i);
      assert s[i + 1..i + 1 + |part|] == s[1..][i..i + |part|];
      assert OccursAt(part, s, i + 1);
    }
    if Occurs(part, s) && !(part <= s) {
      var i: nat :| OccursAt(part, s, i);
      assert i > 0;
      assert s[1..][i - 1..i - 1 + |part|] == s[i..i + |part|];
      assert OccursAt(part, s[1..], i - 1);
    }
  }

  // ---------------------------------------------------------------- decimal numbers

  function Digit(d: nat): char
    requires d < 10
  {
    ("0123456789")[d]
  }

  function Decimal(n: nat): (s: string)
    ensures s != ""
  {
    if n < 10 then [Digit(n)] else Decimal(n / 10) + [Digit(n % 10)]
  }

  lemma {:induction false} DecimalInjective(a: nat, b: nat)
    requires Decimal(a) == Decimal(b)
    ensures a == b
  {
    var s := Decimal(a);
    assert s[|s| - 1] == Digit(a % 10) == Digit(b % 10);
    if a >= 10 && b >= 10 {
      assert s[..|s| - 1] == Decimal(a / 10) == Decimal(b / 10);
      DecimalInjective(a / 10, b / 10);
    }
  }

  // ---------------------------------------------------------------- fresh identifiers

  ghost predicate Injective(candidate: nat -> string) {
    forall i, j :: candidate(i) == candidate(j) ==> i == j
  }

  /** Tries the candidates in order until one is free; the used set is finite, so one is. */
  method FreshId(candidate: nat -> string, used: set<string>) returns (id: string, ghost k: nat)
    requires Injective(candidate)
    ensures id == candidate(k) && id !in used
    ensures forall i: nat :: i < k ==> candidate(i) in used
  {
    var n := 0;
    ghost var seen: set<string> := {};
    while candidate(n) in used
      invariant forall i: nat :: i < n ==> candidate(i) in used
      invariant seen <= used && |seen| == n && forall x :: x in seen ==> exists i: nat :: i < n && x == candidate(i)
      decreases |used - seen|
    {
      assert candidate(n) !in seen;
      assert used - (seen + {candidate(n)}) == (used - seen) - {candidate(n)};
      seen := seen + {candidate(n)};
      n := n + 1;
    }
    id, k := candidate(n), n;
  }

  // ---------------------------------------------------------------- sorted identifiers

  predicate LexLeq(a: string, b: string) {
    a == "" || (b != "" && (a[0] < b[0] || (a[0] == b[0] && LexLeq(a[1..], b[1..]))))
  }

  lemma {:induction false} LexTotal(a: string, b: string)
    ensures LexLeq(a, b) || LexLeq(b, a)
  {
    if a != "" && b != "" && a[0] == b[0] {
      LexTotal(a[1..], b[1..]);
    }
  }

  lemma {:induction false} LexTransitive(a: string, b: string, c: string)
    requires LexLeq(a, b) && LexLeq(b, c)
    ensures LexLeq(a, c)
  {
    if a != "" && a[0] == b[0] && b[0] == c[0] {
      LexTransitive(a[1..], b[1..], c[1..]);
    }
  }

  ghost predicate Ascending(s: seq<string>) {
    forall i, j :: 0 <= i < j < |s| ==> LexLeq(s[i], s[j])
  }

  function Insert(x: string, s: seq<string>): (r: seq<string>)
    ensures multiset(r) == multiset(s) + multiset{x}
  {
    if s == [] || LexLeq(x, s[0]) then [x] + s
    else
      assert s == [s[0]] + s[1..];
      [s[0]] + Insert(x, s[1..])
  }

  // Python's sorted().
  function Sorted(s: seq<string>): (r: seq<string>)
    ensures multiset(r) == multiset(s)
  {
    if s == [] then []
    else
      assert s == [s[0]] + s[1..];
      Insert(s[0], Sorted(s[1..]))
  }

  lemma {:induction false} InsertAscending(x: string, s: seq<string>)
    requires Ascending(s)
    ensures Ascending(Insert(x, s))
  {
    if s != [] && !LexLeq(x, s[0]) {
      InsertAscending(x, s[1..]);
      LexTotal(x, s[0]);
      var r := Insert(x, s[1..]);
      forall i | 0 <= i < |r|
        ensures LexLeq(s[0], r[i])
      {
        assert r[i] in multiset(r);
        assert r[i] == x || r[i] in s[1..];
      }
    } else if s != [] {
      forall i | 0 <= i < |s|
        ensures LexLeq(x, s[i])
      {
        if i > 0 {
          LexTransitive(x, s[0], s[i]);
        }
      }
    }
  }

  lemma {:induction false} SortedAscending(s: seq<string>)
    ensures Ascending(Sorted(s))
  {
    if s != [] {
      SortedAscending(s[1..]);
      InsertAscending(s[0], Sorted(s[1..]));
    }
  }
}
