/** The string functions that the plans, documents and requests rest on, in plain terms. */
module TextRules {
  import opened Texts

  ghost predicate Blank(s: string) {
    forall i :: 0 <= i < |s| ==> IsSpace(s[i])
  }

  // Nothing but whitespace is cut off, and no whitespace is left at either end.
  ghost predicate Stripped(s: string, front: string, rest: string, back: string) {
    && s == front + rest + back && Blank(front) && Blank(back)
    && (rest != "" ==> !IsSpace(rest[0]) && !IsSpace(rest[|rest| - 1]))
  }

  lemma {:induction false} LeftParts(s: string) returns (front: string)
    ensures s == front + StripLeft(s) && Blank(front) && (StripLeft(s) != "" ==> !IsSpace(StripLeft(s)[0]))
  {
    front := "";
    if s != "" && IsSpace(s[0]) {
      var more := LeftParts(s[1..]);
      front := [s[0]] + more;
      assert s == [s[0]] + s[1..];
    }
  }

  lemma {:induction false} RightParts(s: string) returns (back: string)
    ensures s == StripRight(s) + back && Blank(back)
    ensures StripRight(s) <= s && (StripRight(s) != "" ==> !IsSpace(StripRight(s)[|StripRight(s)| - 1]))
    decreases |s|
  {
    back := "";
    if s != "" && IsSpace(s[|s| - 1]) {
      var front, last := s[..|s| - 1], s[|s| - 1];
      var more := RightParts(front);
      back := more + [last];
      assert s == front + [last];
      assert StripRight(s) == StripRight(front);
      assert StripRight(front) + (more + [last]) == (StripRight(front) + more) + [last];
    } else {
      assert s + "" == s;
    }
  }

  /** Stripping cuts off the whitespace at both ends and nothing else. */
  lemma {:induction false} StripMeans(s: string) returns (front: string, back: string)
    ensures Stripped(s, front, Strip(s), back)
  {
    front := LeftParts(s);
    back := RightParts(StripLeft(s));
    assert front + (Strip(s) + back) == front + Strip(s) + back;
  }

  // The first place where the strings differ decides, and a proper prefix comes first.
  ghost predicate Before(a: string, b: string) {
    || a <= b
    || exists k: nat :: k < |a| && k < |b| && a[..k] == b[..k] && a[k] < b[k]
  }

  /** Sorting is by characters from the left. */
  lemma {:induction false} OrderMeans(a: string, b: string)
    ensures LexLeq(a, b) <==> Before(a, b)
  {
    if a != "" && b != "" && a[0] == b[0] {
      OrderMeans(a[1..], b[1..]);
      assert a <= b <==> a[1..] <= b[1..] by {
        assert a == [a[0]] + a[1..] && b == [b[0]] + b[1..];
        PrefixTail(a, b);
      }
      DifferLater(a, b);
    } else if a != "" && b != "" && a[0] < b[0] {
      assert a[..0] == b[..0];
    }
  }

  lemma {:induction false} PrefixTail(a: string, b: string)
    requires a != "" && b != "" && a[0] == b[0]
    ensures a <= b <==> a[1..] <= b[1..]
  {
    if a[1..] <= b[1..] {
      assert forall i :: 1 <= i < |a| ==> a[i] == a[1..][i - 1] && b[i] == b[1..][i - 1];
    }
  }

  lemma {:induction false} DifferLater(a: string, b: string)
    requires a != "" && b != "" && a[0] == b[0]
    ensures (exists k: nat :: k < |a| && k < |b| && a[..k] == b[..k] && a[k] < b[k]) <==>
            exists k: nat :: k < |a[1..]| && k < |b[1..]| && a[1..][..k] == b[1..][..k] && a[1..][k] < b[1..][k]
  {
    if k: nat :| k < |a| && k < |b| && a[..k] == b[..k] && a[k] < b[k] {
      assert k > 0;
      assert a[1..][..k - 1] == a[..k][1..] && b[1..][..k - 1] == b[..k][1..];
      assert a[1..][k - 1] < b[1..][k - 1];
    }
    if k: nat :| k < |a[1..]| && k < |b[1..]| && a[1..][..k] == b[1..][..k] && a[1..][k] < b[1..][k] {
      assert a[..k + 1] == [a[0]] + a[1..][..k] && b[..k + 1] == [b[0]] + b[1..][..k];
      assert a[k + 1] < b[k + 1];
    }
  }

  // The ends of a line that Python knows: single characters, and carriage return with line feed.
  ghost predicate LineBreak(s: string) {
    s == "\r\n" || (|s| == 1 && s[0] as int in {10, 11, 12, 13, 28, 29, 30, 0x85, 0x2028, 0x2029})
  }

  // The lines and their ends, one after the other; the last line may stand without an end.
  ghost predicate LinesOf(s: string, lines: seq<string>, ends: seq<string>) {
    && |lines| == |ends|
    && if lines == [] then s == ""
       else
         && lines[0] + ends[0] <= s && LinesOf(s[|lines[0] + ends[0]|..], lines[1..], ends[1..])
         && (LineBreak(ends[0]) || (ends[0] == "" && |lines| == 1 && lines[0] != ""))
         && !(ends[0] == "\r" && |lines[0]| + 1 < |s| && s[|lines[0]| + 1] == '\n')
  }

  lemma {:induction false} BreakLength(s: string, n: nat) returns (skip: nat)
    requires n < |s| && IsBreak(s[n])
    ensures skip == if s[n] == '\r' && n + 1 < |s| && s[n + 1] == '\n' then 2 else 1
    ensures n + skip <= |s| && LineBreak(s[n..n + skip])
    ensures !(s[n..n + skip] == "\r" && n + 1 < |s| && s[n + 1] == '\n')
  {
    skip := if s[n] == '\r' && n + 1 < |s| && s[n + 1] == '\n' then 2 else 1;
    assert s[n..n + skip][0] == s[n];
  }

  lemma {:induction false} FirstLine(s: string, n: nat, skip: nat, lines: seq<string>, ends: seq<string>)
    requires n + skip <= |s| && LineBreak(s[n..n + skip]) && LinesOf(s[n + skip..], lines, ends)
    requires !(s[n..n + skip] == "\r" && n + 1 < |s| && s[n + 1] == '\n')
    ensures LinesOf(s, [s[..n]] + lines, [s[n..n + skip]] + ends)
  {
    var all, breaks := [s[..n]] + lines, [s[n..n + skip]] + ends;
    assert all[0] + breaks[0] == s[..n + skip] && all[1..] == lines && breaks[1..] == ends;
  }

  /** Splitting gives the lines between the breaks, each without one. */
  lemma {:induction false} SplitMeans(s: string) returns (ends: seq<string>)
    ensures LinesOf(s, SplitLines(s), ends)
    ensures forall i, j :: 0 <= i < |SplitLines(s)| && 0 <= j < |SplitLines(s)[i]| ==> !LineBreak([SplitLines(s)[i][j]])
    decreases |s|
  {
    ends := [];
    if s != "" {
      var n := LineEnd(s);
      if n == |s| {
        ends := [""];
        assert s + "" == s && s[|s + ""|..] == "";
      } else {
        var skip := BreakLength(s, n);
        var rest := SplitMeans(s[n + skip..]);
        ends := [s[n..n + skip]] + rest;
        assert SplitLines(s) == [s[..n]] + SplitLines(s[n + skip..]);
        FirstLine(s, n, skip, SplitLines(s[n + skip..]), rest);
      }
    }
  }
}
