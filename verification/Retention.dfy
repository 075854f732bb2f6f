/** What compaction keeps (`src/paa/context/compaction.py`): every word of a line that is
    not too long, and every distinct line, in order, with single blank lines between. */
module Retention {
  import opened Ledger
  import opened Compaction

  // -- one line -------------------------------------------------------------

  /** The words of a line: its longest stretches without a blank. */
  function Words(s: string): seq<string> {
    if s == "" then []
    else if IsBlank(s[0]) then Words(s[1..])
    else if |s| == 1 || IsBlank(s[1]) then [[s[0]]] + Words(s[1..])
    else
      var rest := Words(s[1..]);
      if rest == [] then [[s[0]]] else [[s[0]] + rest[0]] + rest[1..]
  }

  /** The words with one space between. */
  function Spread(words: seq<string>): string {
    if words == [] then ""
    else if |words| == 1 then words[0]
    else words[0] + " " + Spread(words[1..])
  }

  predicate BlankAt(s: string, i: int) { 0 <= i < |s| && IsBlank(s[i]) }

  predicate NoPairs(s: string) { forall i :: 0 <= i < |s| - 1 ==> !(BlankAt(s, i) && BlankAt(s, i + 1)) }

  /** Only spaces are blank, no two in a row, none at either end. */
  predicate SingleSpaced(s: string) {
    Spaced(s) && NoPairs(s) && !BlankAt(s, 0) && !BlankAt(s, |s| - 1)
  }

  lemma {:induction false} CollapseKeepsWords(s: string)
    requires Unbroken(s)
    ensures var r := Collapse(s);
            && Words(r) == Words(s) && Unbroken(r) && Spaced(r)
            && (r == "" <==> s == "") && (s != "" ==> (IsBlank(r[0]) <==> IsBlank(s[0])))
            && NoPairs(r)
  {
    if s != "" {
      var rest, r := Collapse(s[1..]), Collapse(s);
      CollapseKeepsWords(s[1..]);
      if !IsBlank(s[0]) {
        assert r == [s[0]] + rest && r[1..] == rest;
        assert forall i :: 0 < i < |r| ==> BlankAt(r, i) == BlankAt(rest, i - 1);
      } else if !(rest != "" && rest[0] == ' ') {
        assert r == " " + rest && r[1..] == rest;
        assert forall i :: 0 < i < |r| ==> BlankAt(r, i) == BlankAt(rest, i - 1);
      }
    }
  }

  lemma {:induction false} TrimLeftKeepsWords(s: string)
    requires Unbroken(s)
    ensures Words(TrimLeft(s)) == Words(s) && !BlankAt(TrimLeft(s), 0)
    ensures exists k :: 0 <= k <= |s| && TrimLeft(s) == s[k..]
  {
    if s != "" && IsBlank(s[0]) {
      TrimLeftKeepsWords(s[1..]);
      var k :| 0 <= k <= |s[1..]| && TrimLeft(s[1..]) == s[1..][k..];
      assert s[1..][k..] == s[k + 1..];
    } else {
      assert s[0..] == s;
    }
  }

  lemma {:induction false} BlankEndsNoWord(s: string, b: char)
    requires IsBlank(b)
    ensures Words(s + [b]) == Words(s)
  {
    var t := s + [b];
    if s == "" {
      assert t[1..] == "";
    } else {
      BlankEndsNoWord(s[1..], b);
      assert t[1..] == s[1..] + [b] && t[0] == s[0];
      if |s| > 1 { assert t[1] == s[1]; }
    }
  }

  lemma {:induction false} TrimRightKeepsWords(s: string)
    requires Unbroken(s)
    ensures Words(TrimRight(s)) == Words(s) && !BlankAt(TrimRight(s), |TrimRight(s)| - 1)
    ensures exists k :: 0 <= k <= |s| && TrimRight(s) == s[..k]
  {
    var n := |s| - 1;
    if s != "" && IsBlank(s[n]) {
      TrimRightKeepsWords(s[..n]);
      BlankEndsNoWord(s[..n], s[n]);
      assert s == s[..n] + [s[n]];
      var k :| 0 <= k <= n && TrimRight(s[..n]) == s[..n][..k];
      assert s[..n][..k] == s[..k];
    } else {
      assert s[..|s|] == s;
    }
  }

  lemma SliceIsSpaced(s: string, i: nat, j: nat)
    requires i <= j <= |s| && Spaced(s) && NoPairs(s)
    ensures Spaced(s[i..j]) && NoPairs(s[i..j])
  {
    var r := s[i..j];
    forall k | 0 <= k < |r| - 1 ensures !(BlankAt(r, k) && BlankAt(r, k + 1)) {
      assert !(BlankAt(s, i + k) && BlankAt(s, i + k + 1));
    }
  }

  lemma LeftSpaced(s: string)
    requires Unbroken(s) && Spaced(s) && NoPairs(s)
    ensures var r := TrimLeft(s); Words(r) == Words(s) && Unbroken(r) && Spaced(r) && NoPairs(r) && !BlankAt(r, 0)
  {
    hide Words, TrimLeft, BlankAt, Spaced, Unbroken, NoPairs;
    TrimLeftKeepsWords(s);
    TrimLeftFacts(s);
    var k :| 0 <= k <= |s| && TrimLeft(s) == s[k..];
    SliceIsSpaced(s, k, |s|);
    assert s[k..|s|] == s[k..];
  }

  lemma RightSpaced(s: string)
    requires Unbroken(s) && Spaced(s) && NoPairs(s) && !BlankAt(s, 0)
    ensures Words(TrimRight(s)) == Words(s) && SingleSpaced(TrimRight(s))
  {
    hide Words, TrimRight, IsBlank, Spaced, Unbroken, NoPairs;
    TrimRightKeepsWords(s);
    var k :| 0 <= k <= |s| && TrimRight(s) == s[..k];
    SliceIsSpaced(s, 0, k);
    assert s[0..k] == s[..k];
    assert k > 0 ==> s[..k][0] == s[0];
  }

  lemma StripKeepsWords(s: string)
    requires Unbroken(s)
    ensures Words(Strip(Collapse(s))) == Words(s) && SingleSpaced(Strip(Collapse(s)))
  {
    hide Words, Collapse, TrimLeft, TrimRight, BlankAt, Unbroken, Spaced, SingleSpaced;
    CollapseKeepsWords(s);
    LeftSpaced(Collapse(s));
    RightSpaced(TrimLeft(Collapse(s)));
  }

  lemma TailIsSingleSpaced(s: string, k: nat)
    requires SingleSpaced(s) && k <= |s| && !BlankAt(s, k)
    ensures SingleSpaced(s[k..])
  {
    hide IsBlank;
    var tail := s[k..];
    assert forall i :: 0 <= i < |tail| ==> tail[i] == s[i + k] && BlankAt(tail, i) == BlankAt(s, i + k);
    SpacedTail(s, k);
    assert |tail| > 0 ==> BlankAt(tail, |tail| - 1) == BlankAt(s, |s| - 1);
  }

  lemma SpacedTail(s: string, k: nat)
    requires Spaced(s) && k <= |s|
    ensures Spaced(s[k..])
  {
  }

  /** The first word of a single-spaced line, and what follows it. */
  lemma FirstWord(s: string)
    requires SingleSpaced(s) && |s| > 1
    ensures IsBlank(s[1]) ==> s[1] == ' ' && |s| > 2 && !BlankAt(s, 2) && Words(s) == [[s[0]]] + Words(s[2..])
    ensures !IsBlank(s[1]) && Words(s[1..]) != [] ==> Words(s) == [[s[0]] + Words(s[1..])[0]] + Words(s[1..])[1..]
  {
    assert !BlankAt(s, 0) && Spaced(s);
    if IsBlank(s[1]) {
      assert BlankAt(s, 1) && !(BlankAt(s, 1) && BlankAt(s, 2)) && |s| > 2;
      assert s[1..][1..] == s[2..];
    }
  }

  lemma HasWord(s: string)
    requires s != "" && !IsBlank(s[0])
    ensures Words(s) != []
  {
  }

  /** A single-spaced line is its words with one space between. */
  lemma {:induction false} SingleSpacedIsSpread(s: string)
    requires SingleSpaced(s)
    ensures s == Spread(Words(s))
    decreases |s|
  {
    if |s| == 1 {
      assert s == [s[0]] && s[1..] == "" && !BlankAt(s, 0);
    } else if |s| > 1 {
      FirstWord(s);
      var k := if IsBlank(s[1]) then 2 else 1;
      var tail := s[k..];
      TailIsSingleSpaced(s, k);
      SingleSpacedIsSpread(tail);
      assert !BlankAt(tail, 0);
      HasWord(tail);
      SpreadCons(s[0], Words(tail));
      assert s == (if k == 2 then [s[0]] + " " else [s[0]]) + tail;
    }
  }

  lemma SpreadCons(first: char, words: seq<string>)
    requires words != []
    ensures Spread([[first]] + words) == [first] + " " + Spread(words)
    ensures Spread([[first] + words[0]] + words[1..]) == [first] + Spread(words)
  {
    hide Spread;
    SpreadFirst([first], words);
    var rest := words[1..];
    assert words == [words[0]] + rest;
    SpreadFirst(words[0], rest);
    SpreadFirst([first] + words[0], rest);
    if rest != [] {
      assert ([first] + words[0]) + " " + Spread(rest) == [first] + (words[0] + " " + Spread(rest));
    }
  }

  lemma SpreadFirst(word: string, rest: seq<string>)
    ensures Spread([word] + rest) == if rest == [] then word else word + " " + Spread(rest)
  {
    assert ([word] + rest)[1..] == rest;
  }

  /** A reduced line is the words of what the markdown rules left of it with one space
      between; one that is too long is cut to leave room for the marker and carries it. */
  lemma LineKeepsWords(c: Compactor, line: string)
    requires c.Valid() && Unbroken(line)
    ensures var full, r := Spread(Words(c.markdown(line))), ReduceLine(c, line);
            if |full| <= c.maxLineChars then r == full
            else |r| == c.maxLineChars && c.ellipsis == r[c.maxLineChars - |c.ellipsis|..] && r[..c.maxLineChars - |c.ellipsis|] <= full
  {
    var m := c.markdown(line);
    DeletesFacts(m, line);
    StripKeepsWords(m);
    SingleSpacedIsSpread(Strip(Collapse(m)));
  }

  // -- the lines of a text --------------------------------------------------

  /** A line boundary: one character, or a carriage return and line feed together. */
  predicate IsBoundary(s: string) { s == "\r\n" || (|s| == 1 && IsBreak(s[0])) }

  /** The text begins with this line and what ends it: a boundary, which parts no carriage
      return from its line feed, or the end of the text. */
  predicate Begins(t: string, line: string, end: string) {
    var n := |line| + |end|;
    && 0 < n <= |t| && t[..n] == line + end && Unbroken(line)
    && (IsBoundary(end) || (end == "" && n == |t|))
    && !(end == "\r" && n < |t| && t[n] == '\n')
  }

  /** The text is these lines, each with what ends it. */
  predicate Woven(t: string, lines: seq<string>, ends: seq<string>)
    requires |ends| == |lines|
    decreases |lines|
  {
    if lines == [] then t == ""
    else Begins(t, lines[0], ends[0]) && Woven(t[|lines[0]| + |ends[0]|..], lines[1..], ends[1..])
  }

  lemma WovenCons(t: string, line: string, end: string, lines: seq<string>, ends: seq<string>)
    requires |ends| == |lines| && Begins(t, line, end) && Woven(t[|line| + |end|..], lines, ends)
    ensures Woven(t, [line] + lines, [end] + ends)
  {
    assert |line| + |end| <= |t|;
    hide Begins;
    var all, after := [line] + lines, [end] + ends;
    assert all[1..] == lines && after[1..] == ends;
  }

  lemma SplitUnfolds(t: string)
    requires t != ""
    ensures var k := FirstBreak(t);
            SplitLines(t) == if k == |t| then [t] else [t[..k]] + SplitLines(t[AfterBreak(t, k)..])
  {
    hide FirstBreak, AfterBreak;
    assert t[..|t|] == t;
  }

  lemma BoundaryAt(t: string, k: nat)
    requires k < |t| && IsBreak(t[k])
    ensures var r := AfterBreak(t, k);
            IsBoundary(t[k..r]) && !(t[k..r] == "\r" && r < |t| && t[r] == '\n')
  {
    var r := AfterBreak(t, k);
    assert |t[k..r]| == r - k && t[k..r][0] == t[k];
    assert r == k + 2 ==> t[k..r] == "\r\n";
  }

  lemma {:induction false} LinesAreWoven(t: string) returns (ends: seq<string>)
    ensures |ends| == |SplitLines(t)| && Woven(t, SplitLines(t), ends)
    decreases |t|
  {
    hide SplitLines, IsBoundary, IsBreak, Unbroken, Woven;
    if t == "" {
      ends := [];
      NoLines();
    } else {
      var k := FirstBreak(t);
      SplitUnfolds(t);
      if k == |t| {
        ends := [""];
        assert t[..k] == t && t + "" == t && t[|t|..] == "";
        assert t[|t| + |""|..] == "";
        NoLines();
        WovenCons(t, t, "", [], []);
        assert [t] + [] == [t] && [""] + [] == [""];
      } else {
        var r := AfterBreak(t, k);
        BoundaryAt(t, k);
        var rest := LinesAreWoven(t[r..]);
        ends := [t[k..r]] + rest;
        assert t[..r] == t[..k] + t[k..r];
        WovenCons(t, t[..k], t[k..r], SplitLines(t[r..]), rest);
      }
    }
  }

  lemma NoLines()
    ensures SplitLines("") == [] && Woven("", [], [])
  {
  }

  predicate Increasing(s: seq<nat>) { forall i, j :: 0 <= i < j < |s| ==> s[i] < s[j] }

  /** `out` is the lines of `lines` at the positions `at`. */
  predicate Picks(lines: seq<string>, out: seq<string>, at: seq<nat>) {
    && |at| == |out| && Increasing(at)
    && forall i :: 0 <= i < |at| ==> at[i] < |lines| && out[i] == lines[at[i]]
  }

  /** Of the lines that are not blank exactly the first occurrences are picked. */
  predicate PicksFirsts(lines: seq<string>, at: seq<nat>) {
    forall k: nat :: k < |lines| && lines[k] != "" ==> (k in at <==> lines[k] !in lines[..k])
  }

  /** Between two picked lines a blank one stands exactly where there was one or more. */
  predicate KeepsGaps(lines: seq<string>, out: seq<string>, at: seq<nat>)
    requires |at| == |out|
  {
    && (forall i :: 0 <= i < |out| - 1 ==> !(out[i] == "" && out[i + 1] == ""))
    && forall i, k :: 0 <= i < |at| - 1 && at[i] < k < at[i + 1] && k < |lines| && lines[k] == "" ==> out[i] == ""
  }

  /** The blank lines after the last picked one are represented by it. */
  predicate Ends(lines: seq<string>, out: seq<string>, at: seq<nat>)
    requires |at| == |out|
  {
    forall k :: 0 <= k < |lines| && lines[k] == "" && (at == [] || k > at[|at| - 1]) ==> at != [] && out[|at| - 1] == ""
  }

  predicate Kept(lines: seq<string>, out: seq<string>, at: seq<nat>) {
    Picks(lines, out, at) && PicksFirsts(lines, at) && KeepsGaps(lines, out, at) && Ends(lines, out, at)
  }

  lemma {:induction false} DistinctSnoc(kept: seq<string>, rest: seq<string>, line: string)
    ensures var d := Distinct(kept, rest); Distinct(kept, rest + [line]) == if Keeps(d, line) then d + [line] else d
    decreases |rest|
  {
    hide Keeps;
    var longer := rest + [line];
    if rest == [] {
      assert longer[1..] == [];
    } else {
      assert longer[1..] == rest[1..] + [line];
      DistinctSnoc(if Keeps(kept, rest[0]) then kept + [rest[0]] else kept, rest[1..], line);
    }
  }

  /** A line that is not blank is in the output exactly when it was in the input. */
  lemma {:induction false} FirstIsKept(lines: seq<string>, out: seq<string>, at: seq<nat>, line: string)
    requires Picks(lines, out, at) && PicksFirsts(lines, at) && line != ""
    ensures line in out <==> line in lines
  {
    if line in lines {
      var k := FirstAt(lines, line);
      assert k in at;
      var i :| 0 <= i < |at| && at[i] == k;
      assert out[i] == line;
    }
  }

  lemma {:induction false} FirstAt(lines: seq<string>, line: string) returns (k: nat)
    requires line in lines
    ensures k < |lines| && lines[k] == line && line !in lines[..k]
  {
    if lines[0] == line {
      k := 0;
    } else {
      assert lines == [lines[0]] + lines[1..];
      k := FirstAt(lines[1..], line);
      k := k + 1;
      assert lines[..k] == [lines[0]] + lines[1..][..k - 1];
    }
  }

  lemma MoreGaps(lines: seq<string>, out: seq<string>, at: seq<nat>, line: string)
    requires Kept(lines, out, at) && Keeps(out, line)
    ensures KeepsGaps(lines + [line], out + [line], at + [|lines|])
    ensures Ends(lines + [line], out + [line], at + [|lines|])
  {
    hide PicksFirsts;
    var more, n := lines + [line], |lines|;
    var at', out' := at + [n], out + [line];
    assert forall k :: 0 <= k < n ==> more[k] == lines[k];
    forall i, k | 0 <= i < |at'| - 1 && at'[i] < k < at'[i + 1] && k < |more| && more[k] == "" ensures out'[i] == "" {
      assert at'[i] == at[i] && lines[k] == "";
      if i == |at| - 1 { assert k > at[|at| - 1]; }
    }
  }

  lemma MoreFirsts(lines: seq<string>, out: seq<string>, at: seq<nat>, line: string)
    requires Picks(lines, out, at) && PicksFirsts(lines, at)
    ensures PicksFirsts(lines + [line], if Keeps(out, line) then at + [|lines|] else at)
  {
    var more, n := lines + [line], |lines|;
    var at' := if Keeps(out, line) then at + [n] else at;
    if line != "" { FirstIsKept(lines, out, at, line); }
    assert n !in at;
    forall k: nat | k < |more| && more[k] != "" ensures k in at' <==> more[k] !in more[..k] {
      if k < n {
        assert more[k] == lines[k] && more[..k] == lines[..k];
      } else {
        assert more[..n] == lines;
      }
    }
  }

  lemma SameGaps(lines: seq<string>, out: seq<string>, at: seq<nat>, line: string)
    requires Kept(lines, out, at) && !Keeps(out, line)
    ensures KeepsGaps(lines + [line], out, at) && Ends(lines + [line], out, at)
  {
    hide PicksFirsts;
    var more := lines + [line];
    assert forall k :: 0 <= k < |lines| ==> more[k] == lines[k];
    forall i, k | 0 <= i < |at| - 1 && at[i] < k < at[i + 1] && k < |more| && more[k] == "" ensures out[i] == "" {
      assert at[i + 1] < |lines| && lines[k] == "";
    }
  }

  lemma MorePicks(lines: seq<string>, out: seq<string>, at: seq<nat>, line: string)
    requires Picks(lines, out, at)
    ensures Picks(lines + [line], out, at) && Picks(lines + [line], out + [line], at + [|lines|])
  {
  }

  lemma OneMoreLine(lines: seq<string>, out: seq<string>, at: seq<nat>, line: string)
    requires Kept(lines, out, at)
    ensures if Keeps(out, line) then Kept(lines + [line], out + [line], at + [|lines|]) else Kept(lines + [line], out, at)
  {
    hide Picks, PicksFirsts, KeepsGaps, Ends, Keeps;
    MorePicks(lines, out, at, line);
    MoreFirsts(lines, out, at, line);
    if Keeps(out, line) { MoreGaps(lines, out, at, line); } else { SameGaps(lines, out, at, line); }
  }

  lemma {:induction false} DistinctKeeps(lines: seq<string>) returns (at: seq<nat>)
    ensures Kept(lines, Distinct([], lines), at)
  {
    if lines == [] {
      at := [];
    } else {
      var init, last := lines[..|lines| - 1], lines[|lines| - 1];
      assert lines == init + [last];
      at := DistinctKeeps(init);
      DistinctSnoc([], init, last);
      OneMoreLine(init, Distinct([], init), at, last);
      if Keeps(Distinct([], init), last) { at := at + [|init|]; }
    }
  }

  predicate KeptInside(lines: seq<string>, out: seq<string>, at: seq<nat>) {
    Picks(lines, out, at) && PicksFirsts(lines, at) && KeepsGaps(lines, out, at)
  }

  /** A blank line at either end may go, and nothing else changes. */
  lemma FirstGoes(lines: seq<string>, out: seq<string>, at: seq<nat>)
    requires KeptInside(lines, out, at) && out != [] && out[0] == ""
    ensures KeptInside(lines, out[1..], at[1..])
  {
    assert Picks(lines, out[1..], at[1..]);
    FirstsWithoutBlank(lines, at, at[1..], at[0]);
    GapsInSlice(lines, out, at, 1, |out|);
    assert out[1..|out|] == out[1..] && at[1..|out|] == at[1..];
  }

  lemma LastGoes(lines: seq<string>, out: seq<string>, at: seq<nat>)
    requires KeptInside(lines, out, at) && out != [] && out[|out| - 1] == ""
    ensures KeptInside(lines, out[..|out| - 1], at[..|out| - 1])
  {
    var n := |out| - 1;
    assert Picks(lines, out[..n], at[..n]);
    FirstsWithoutBlank(lines, at, at[..n], at[n]);
    GapsInSlice(lines, out, at, 0, n);
    assert out[0..n] == out[..n] && at[0..n] == at[..n];
  }

  lemma FirstsWithoutBlank(lines: seq<string>, at: seq<nat>, at': seq<nat>, gone: nat)
    requires PicksFirsts(lines, at) && gone < |lines| && lines[gone] == "" && (at == [gone] + at' || at == at' + [gone])
    ensures PicksFirsts(lines, at')
  {
    forall k: nat | k < |lines| && lines[k] != "" ensures k in at' <==> lines[k] !in lines[..k] {
      assert k in at <==> k in at' || k == gone;
    }
  }

  lemma GapsInSlice(lines: seq<string>, out: seq<string>, at: seq<nat>, from: nat, to: nat)
    requires |at| == |out| && KeepsGaps(lines, out, at) && from <= to <= |out|
    ensures KeepsGaps(lines, out[from..to], at[from..to])
  {
    var out', at' := out[from..to], at[from..to];
    forall i | 0 <= i < |out'| - 1 ensures !(out'[i] == "" && out'[i + 1] == "") {
      assert !(out[from + i] == "" && out[from + i + 1] == "");
    }
    forall i, k | 0 <= i < |at'| - 1 && at'[i] < k < at'[i + 1] && k < |lines| && lines[k] == "" ensures out'[i] == "" {
      assert at[from + i] < k < at[from + i + 1];
    }
  }

  /** Dropping blank lines at either end keeps the rest as it is. */
  lemma {:induction false} LeadingKeeps(lines: seq<string>, out: seq<string>, at: seq<nat>) returns (at': seq<nat>)
    requires KeptInside(lines, out, at)
    ensures var out' := DropLeading(out); KeptInside(lines, out', at') && (out' != [] ==> out'[0] != "")
    decreases |out|
  {
    hide KeptInside;
    at' := at;
    if out != [] && out[0] == "" {
      SameLength(lines, out, at);
      FirstGoes(lines, out, at);
      at' := LeadingKeeps(lines, out[1..], at[1..]);
    }
  }

  lemma SameLength(lines: seq<string>, out: seq<string>, at: seq<nat>)
    requires KeptInside(lines, out, at)
    ensures |at| == |out|
  {
  }

  lemma {:induction false} TrailingKeeps(lines: seq<string>, out: seq<string>, at: seq<nat>) returns (at': seq<nat>)
    requires KeptInside(lines, out, at) && (out != [] ==> out[0] != "")
    ensures var out' := DropTrailing(out);
            KeptInside(lines, out', at') && (out' != [] ==> out'[0] != "" && out'[|out'| - 1] != "")
    decreases |out|
  {
    hide KeptInside;
    at' := at;
    var n := |out| - 1;
    if out != [] && out[n] == "" {
      SameLength(lines, out, at);
      LastGoes(lines, out, at);
      at' := TrailingKeeps(lines, out[..n], at[..n]);
    }
  }

  /** One pass over a text: its reduced lines come out once each, in order of first
      occurrence; blank lines separate those that were separated, singly and never at an end. */
  lemma PassKeepsLines(c: Compactor, t: string) returns (out: seq<string>, at: seq<nat>)
    requires c.Valid()
    ensures var lines := ReduceLines(c, SplitLines(t));
            && Reduce(c, t) == Join(out) && KeptInside(lines, out, at)
            && (out != [] ==> out[0] != "" && out[|out| - 1] != "")
            && (forall line :: line != "" ==> (line in out <==> line in lines))
  {
    hide Distinct, ReduceLines, SplitLines, PicksFirsts, KeepsGaps, Picks, DropLeading, DropTrailing, Join;
    var lines := ReduceLines(c, SplitLines(t));
    at := DistinctKeeps(lines);
    out := Distinct([], lines);
    at := LeadingKeeps(lines, out, at);
    out := DropLeading(out);
    at := TrailingKeeps(lines, out, at);
    out := DropTrailing(out);
    forall line | line != "" ensures line in out <==> line in lines { FirstIsKept(lines, out, at, line); }
  }
}
