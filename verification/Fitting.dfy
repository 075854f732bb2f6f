/** Fitting a text into a token budget (`compact_to_budget` and below it in
    `src/paa/context/compaction.py`), and which of its results are still compact. */
module Fitting {
  import opened Ledger
  import opened Compaction

  /** The estimator does not shrink as a prefix (followed by `suffix`) grows. */
  ghost predicate GrowsAlong(c: Compactor, text: string, suffix: string) {
    forall i, j :: 0 <= i <= j <= |text| ==> c.estimate(text[..i] + suffix) <= c.estimate(text[..j] + suffix)
  }

  /** `_search_prefix`: every answer fits; along a growing estimate it is the largest
      prefix that does, and no answer means that none does. */
  method SearchPrefix(c: Compactor, text: string, maxTokens: nat, suffix: string, limit: nat) returns (best: Option<nat>)
    requires limit <= |text|
    ensures best.Some? ==> best.value <= limit && c.estimate(text[..best.value] + suffix) <= maxTokens
    ensures GrowsAlong(c, text, suffix) ==>
              forall k :: 0 <= k <= limit ==>
                (c.estimate(text[..k] + suffix) <= maxTokens <==> best.Some? && k <= best.value)
  {
    var lo, hi: int := 0, limit;
    best := None;
    while lo <= hi
      invariant 0 <= lo <= limit + 1 && -1 <= hi <= limit
      invariant best.Some? ==> best.value <= limit && c.estimate(text[..best.value] + suffix) <= maxTokens && lo == best.value + 1
      invariant best.None? ==> lo == 0
      invariant lo <= hi + 1
      invariant GrowsAlong(c, text, suffix) ==> forall k :: hi < k <= limit ==> c.estimate(text[..k] + suffix) > maxTokens
      decreases hi - lo
    {
      var mid := (lo + hi) / 2;
      if c.estimate(text[..mid] + suffix) <= maxTokens {
        best := Some(mid);
        lo := mid + 1;
      } else {
        hi := mid - 1;
      }
    }
  }

  /** What a truncation may return: the text when it fits, and otherwise a prefix with
      the marker, or without it when not even the marker fits. With an estimator that
      grows along prefixes no longer prefix would have fitted. */
  ghost predicate IsTruncation(c: Compactor, text: string, maxTokens: nat, r: string) {
    if c.estimate(text) <= maxTokens then r == text
    else
      && (|| (exists k :: 0 <= k <= |text| - |c.ellipsis| && r == text[..k] + c.ellipsis)
          || (exists k :: 0 <= k <= |text| && r == text[..k]))
      && (GrowsAlong(c, text, c.ellipsis) && GrowsAlong(c, text, "") ==>
            if |text| >= |c.ellipsis| && c.estimate(c.ellipsis) <= maxTokens
            then LongestFit(c, text, c.ellipsis, |text| - |c.ellipsis|, maxTokens, r)
            else LongestFit(c, text, "", |text|, maxTokens, r))
  }

  /** `r` is the longest prefix of at most `limit` characters that fits with `suffix`. */
  ghost predicate LongestFit(c: Compactor, text: string, suffix: string, limit: nat, maxTokens: nat, r: string)
    requires limit <= |text|
  {
    exists k :: 0 <= k <= limit && r == text[..k] + suffix
                && forall j :: k < j <= limit ==> c.estimate(text[..j] + suffix) > maxTokens
  }

  /** `_truncate_to_tokens` */
  method TruncateToTokens(c: Compactor, text: string, maxTokens: nat) returns (r: string)
    requires c.Valid()
    ensures c.estimate(r) <= maxTokens && |r| <= |text|
    ensures IsTruncation(c, text, maxTokens, r)
  {
    if c.estimate(text) <= maxTokens { return text; }
    assert text[..0] + c.ellipsis == c.ellipsis && text[..0] + "" == "" && text[..0] == "";
    if |text| >= |c.ellipsis| {
      var best := SearchPrefix(c, text, maxTokens, c.ellipsis, |text| - |c.ellipsis|);
      if best.Some? { return text[..best.value] + c.ellipsis; }
    }
    var best := SearchPrefix(c, text, maxTokens, "", |text|);
    var k := if best.Some? then best.value else 0;
    assert text[..k] + "" == text[..k];
    r := text[..k];
  }

  function StripBreaks(s: string): (r: string)
    ensures |r| <= |s|
  {
    if s != "" && s[0] == '\n' then StripBreaks(s[1..])
    else if s != "" && s[|s| - 1] == '\n' then StripBreaks(s[..|s| - 1])
    else s
  }

  /** `str.split("\n")` */
  function SplitOnFeed(t: string): (lines: seq<string>)
    ensures lines != [] && Weight(lines) == |t| + 1
  {
    if t == "" then [""]
    else
      var rest := SplitOnFeed(t[1..]);
      if t[0] == '\n' then
        assert ([""] + rest)[1..] == rest;
        [""] + rest
      else
        assert ([[t[0]] + rest[0]] + rest[1..])[1..] == rest[1..];
        [[t[0]] + rest[0]] + rest[1..]
  }

  // -- compact texts, line by line ------------------------------------------

  /** Lines a pass leaves as they are. */
  predicate Tidy(c: Compactor, lines: seq<string>)
    requires c.maxLineChars > |c.ellipsis|
  {
    && lines != [] && lines[0] != "" && lines[|lines| - 1] != ""
    && (forall l :: l in lines ==> Unbroken(l) && ReduceLine(c, l) == l)
    && Distinct([], lines) == lines
  }

  lemma {:induction false} ReducedLinesStay(c: Compactor, lines: seq<string>)
    requires c.maxLineChars > |c.ellipsis|
    ensures ReduceLines(c, lines) == lines <==> forall l :: l in lines ==> ReduceLine(c, l) == l
  {
    hide ReduceLine;
    if lines != [] {
      ReducedLinesStay(c, lines[1..]);
      assert lines == [lines[0]] + lines[1..];
      assert lines[0] in lines;
    }
  }

  lemma EndsAreKept(lines: seq<string>)
    requires lines != [] && DropTrailing(DropLeading(lines)) == lines
    ensures lines[0] != "" && lines[|lines| - 1] != ""
  {
    DroppedIsShorter(lines);
    DroppedIsShorter(DropLeading(lines));
  }

  /** Dropping blank lines at an end shortens the list unless there is none. */
  lemma {:induction false} DroppedIsShorter(lines: seq<string>)
    ensures |DropLeading(lines)| <= |lines| && |DropTrailing(lines)| <= |lines|
    ensures lines != [] && |DropLeading(lines)| == |lines| ==> lines[0] != ""
    ensures lines != [] && |DropTrailing(lines)| == |lines| ==> lines[|lines| - 1] != ""
    ensures lines != [] && lines[0] != "" ==> DropLeading(lines) == lines
  {
    if lines != [] {
      DroppedIsShorter(lines[1..]);
      DroppedIsShorter(lines[..|lines| - 1]);
    }
  }

  /** Every compact text but the empty one is the join of tidy lines ... */
  lemma FixedIsTidy(c: Compactor, t: string)
    requires c.Valid() && t != "" && Reduce(c, t) == t
    ensures Tidy(c, SplitLines(t)) && Join(SplitLines(t)) == t
  {
    hide Reduce, ReduceLine, SplitLines;
    FixedKeepsLines(c, t);
    ReducedLinesStay(c, SplitLines(t));
    EndsAreKept(SplitLines(t));
  }

  /** No stage of a pass over a compact text changes its lines. */
  lemma FixedKeepsLines(c: Compactor, t: string)
    requires c.Valid() && t != "" && Reduce(c, t) == t
    ensures var lines := SplitLines(t);
            && lines != [] && Join(lines) == t
            && ReduceLines(c, lines) == lines && Distinct([], lines) == lines && DropTrailing(DropLeading(lines)) == lines
  {
    var lines := SplitLines(t);
    var reduced := ReduceLines(c, lines);
    var distinct := Distinct([], reduced);
    var out := DropTrailing(DropLeading(distinct));
    ReduceFacts(c, t);
    SplitWeight(t);
    SplitJoin(t);
    hide Normal, Spaced, ReduceLine, SplitLines, ReduceLines, Distinct, DropTrailing, DropLeading;
    assert AllBrief(c, lines);
    ReduceLinesFacts(c, lines);
    DistinctFacts([], reduced);
    DropLeadingFacts(distinct);
    DropTrailingFacts(DropLeading(distinct));
    JoinLength(out);
    assert out != [] && Weight(out) == Weight(lines) == |t| + 1;
    assert [] + reduced == reduced;
    assert reduced == lines && distinct == lines && out == lines;
  }

  lemma {:induction false} FirstBreakIs(line: string, rest: string)
    requires Unbroken(line)
    ensures FirstBreak(line + "\n" + rest) == |line| && FirstBreak(line) == |line|
  {
    if line != "" {
      FirstBreakIs(line[1..], rest);
      assert (line + "\n" + rest)[1..] == line[1..] + "\n" + rest;
      assert !IsBreak(line[0]);
    }
  }

  lemma {:induction false} SplitLinesOfJoin(lines: seq<string>)
    requires lines != [] && lines[|lines| - 1] != "" && forall l :: l in lines ==> Unbroken(l)
    ensures SplitLines(Join(lines)) == lines
  {
    assert lines[0] in lines;
    if |lines| == 1 {
      FirstBreakIs(lines[0], "");
    } else {
      var rest := lines[1..];
      SplitLinesOfJoin(rest);
      FirstBreakIs(lines[0], Join(rest));
      var t := Join(lines);
      var k := |lines[0]|;
      assert t == lines[0] + "\n" + Join(rest);
      assert t[..k] == lines[0] && t[k] == '\n' && t[k + 1..] == Join(rest);
      assert lines == [lines[0]] + rest;
    }
  }

  /** ... and the join of tidy lines is compact. */
  lemma TidyIsFixed(c: Compactor, lines: seq<string>)
    requires c.Valid() && Tidy(c, lines)
    ensures Reduce(c, Join(lines)) == Join(lines)
  {
    SplitLinesOfJoin(lines);
    ReducedLinesStay(c, lines);
  }

  lemma {:induction false} SplitOnFeedOfJoin(lines: seq<string>)
    requires lines != [] && forall l :: l in lines ==> Unbroken(l)
    ensures SplitOnFeed(Join(lines)) == lines
  {
    assert lines[0] in lines;
    if |lines| == 1 {
      SplitOneLine(lines[0]);
    } else {
      SplitOnFeedOfJoin(lines[1..]);
      SplitFirstLine(lines[0], Join(lines[1..]));
      assert lines == [lines[0]] + lines[1..];
    }
  }

  lemma {:induction false} SplitOneLine(line: string)
    requires Unbroken(line)
    ensures SplitOnFeed(line) == [line]
  {
    if line != "" {
      SplitOneLine(line[1..]);
      assert line == [line[0]] + line[1..];
    }
  }

  lemma {:induction false} SplitFirstLine(line: string, rest: string)
    requires Unbroken(line)
    ensures SplitOnFeed(line + "\n" + rest) == [line] + SplitOnFeed(rest)
  {
    var t := line + "\n" + rest;
    if line == "" {
      assert t[1..] == rest;
    } else {
      SplitFirstLine(line[1..], rest);
      assert t[1..] == line[1..] + "\n" + rest;
      assert line == [line[0]] + line[1..];
    }
  }

  // -- dropping trailing lines ----------------------------------------------

  lemma {:induction false} DistinctKeeps(kept: seq<string>, rest: seq<string>, i: nat)
    requires i < |rest| && Distinct(kept, rest) == kept + rest
    ensures Keeps(kept + rest[..i], rest[i])
    decreases |rest|
  {
    DistinctKeepsFirst(kept, rest);
    hide Keeps;
    var longer := kept + [rest[0]];
    assert kept + rest == longer + rest[1..];
    if i == 0 {
      assert kept + rest[..0] == kept;
    } else {
      DistinctKeeps(longer, rest[1..], i - 1);
      assert kept + rest[..i] == longer + rest[1..][..i - 1];
    }
  }

  lemma DistinctKeepsFirst(kept: seq<string>, rest: seq<string>)
    requires rest != [] && Distinct(kept, rest) == kept + rest
    ensures Keeps(kept, rest[0]) && Distinct(kept + [rest[0]], rest[1..]) == kept + rest
  {
    hide Keeps;
    if !Keeps(kept, rest[0]) {
      DistinctFacts(kept, rest[1..]);
      WeightConcat(kept, rest);
    }
  }

  lemma {:induction false} KeepsDistinct(kept: seq<string>, rest: seq<string>)
    requires forall i :: 0 <= i < |rest| ==> Keeps(kept + rest[..i], rest[i])
    ensures Distinct(kept, rest) == kept + rest
    decreases |rest|
  {
    hide Keeps;
    if rest == [] {
      assert kept + [] == kept;
    } else {
      var longer := kept + [rest[0]];
      assert kept + rest[..0] == kept;
      forall i | 0 <= i < |rest[1..]| ensures Keeps(longer + rest[1..][..i], rest[1..][i]) {
        assert longer + rest[1..][..i] == kept + rest[..i + 1];
      }
      KeepsDistinct(longer, rest[1..]);
      assert longer + rest[1..] == kept + rest;
    }
  }

  /** Leading lines of lines without repetitions, and what comes before each of them. */
  lemma DistinctPrefix(lines: seq<string>, k: nat)
    requires k <= |lines| && Distinct([], lines) == lines
    ensures Distinct([], lines[..k]) == lines[..k]
    ensures k < |lines| ==> Keeps(lines[..k], lines[k])
  {
    hide Keeps, Distinct;
    assert [] + lines == lines && [] + lines[..k] == lines[..k];
    if k < |lines| { DistinctKeeps([], lines, k); }
    forall i | 0 <= i < k ensures Keeps([] + lines[..k][..i], lines[..k][i]) {
      DistinctKeeps([], lines, i);
      assert lines[..k][..i] == lines[..i];
    }
    KeepsDistinct([], lines[..k]);
  }

  lemma {:induction false} JoinEnds(lines: seq<string>)
    requires lines != [] && lines[0] != "" && lines[|lines| - 1] != ""
    ensures var t := Join(lines);
            var last := lines[|lines| - 1];
            t != "" && t[0] == lines[0][0] && t[|t| - 1] == last[|last| - 1]
  {
    if |lines| > 1 {
      JoinLast(lines);
    }
  }

  lemma {:induction false} JoinLast(lines: seq<string>)
    requires lines != [] && lines[|lines| - 1] != ""
    ensures var t := Join(lines);
            var last := lines[|lines| - 1];
            t != "" && t[|t| - 1] == last[|last| - 1]
  {
    if |lines| > 1 { JoinLast(lines[1..]); }
  }

  lemma {:induction false} JoinBlankLast(lines: seq<string>)
    requires lines != []
    ensures Join(lines + [""]) == Join(lines) + "\n"
  {
    if |lines| == 1 {
      assert (lines + [""])[1..] == [""];
    } else {
      JoinBlankLast(lines[1..]);
      assert (lines + [""])[1..] == lines[1..] + [""];
    }
  }

  lemma NothingToStrip(lines: seq<string>)
    requires lines != [] && lines[0] != "" && lines[|lines| - 1] != "" && forall l :: l in lines ==> Unbroken(l)
    ensures StripBreaks(Join(lines)) == Join(lines)
    ensures StripBreaks(Join(lines) + "\n") == Join(lines)
  {
    JoinEnds(lines);
    assert lines[0] in lines && lines[|lines| - 1] in lines;
    var t := Join(lines);
    hide Join;
    StripStops(t);
  }

  lemma StripStops(t: string)
    requires t != "" && t[0] != '\n' && t[|t| - 1] != '\n'
    ensures StripBreaks(t) == t && StripBreaks(t + "\n") == t
  {
    var s := t + "\n";
    assert s[0] == t[0] && s[|s| - 1] == '\n' && s[..|s| - 1] == t;
  }

  /** The first `k` lines, without a blank one at the end. */
  function Cut(lines: seq<string>, k: nat): string
    requires k <= |lines|
  {
    StripBreaks(Join(lines[..k]))
  }

  /** Dropping trailing lines of a compact text leaves a compact text. */
  lemma CutIsCompact(c: Compactor, lines: seq<string>, k: nat)
    requires c.Valid() && Tidy(c, lines) && 1 <= k <= |lines|
    ensures Reduce(c, Cut(lines, k)) == Cut(lines, k)
    ensures k == |lines| ==> Cut(lines, k) == Join(lines)
  {
    hide ReduceLine, Reduce, StripBreaks, Join;
    var n := if lines[k - 1] == "" then k - 1 else k;
    DistinctPrefix(lines, n);
    assert lines[k - 1] == "" ==> Keeps(lines[..k - 1], "");
    TidyPrefix(c, lines, n);
    hide Tidy, Keeps, Distinct;
    TidyIsFixed(c, lines[..n]);
    CutIsPrefix(c, lines, k, n);
    if k == |lines| {
      LastLineStays(c, lines);
      assert lines[..k] == lines;
    }
  }

  lemma LastLineStays(c: Compactor, lines: seq<string>)
    requires c.Valid() && Tidy(c, lines)
    ensures lines != [] && lines[|lines| - 1] != ""
  {
  }

  lemma TidyPrefix(c: Compactor, lines: seq<string>, n: nat)
    requires c.Valid() && Tidy(c, lines) && 1 <= n <= |lines| && lines[n - 1] != "" && Distinct([], lines[..n]) == lines[..n]
    ensures Tidy(c, lines[..n])
  {
    hide ReduceLine, Distinct;
    assert lines[..n][0] == lines[0] && lines[..n][n - 1] == lines[n - 1];
  }

  lemma CutIsPrefix(c: Compactor, lines: seq<string>, k: nat, n: nat)
    requires c.Valid() && 1 <= k <= |lines| && 1 <= n && n == (if lines[k - 1] == "" then k - 1 else k) && Tidy(c, lines[..n])
    ensures Cut(lines, k) == Join(lines[..n])
  {
    hide ReduceLine, Distinct, StripBreaks, Join;
    NothingToStrip(lines[..n]);
    if n < k {
      assert lines[..k] == lines[..n] + [""];
      JoinBlankLast(lines[..n]);
    }
  }

  /** What fits of a compact text: the text itself; else as many whole leading lines as
      fit, still a compact text; else a truncation of its first line. */
  ghost predicate IsFitted(c: Compactor, compacted: string, maxTokens: nat, r: string)
    requires c.maxLineChars > |c.ellipsis|
  {
    var lines := SplitOnFeed(compacted);
    if c.estimate(compacted) <= maxTokens then r == compacted && Reduce(c, r) == r
    else if NoCutFits(c, lines, 1, maxTokens) then IsTruncation(c, Cut(lines, 1), maxTokens, r)
    else Reduce(c, r) == r && exists k :: 1 <= k < |lines| && r == Cut(lines, k) && c.estimate(r) <= maxTokens && NoCutFits(c, lines, k + 1, maxTokens)
  }

  /** No proper cut of `from` lines or more fits. */
  predicate NoCutFits(c: Compactor, lines: seq<string>, from: nat, maxTokens: nat) {
    forall j :: from <= j < |lines| ==> c.estimate(Cut(lines, j)) > maxTokens
  }

  /** `compact_to_budget`: the result is what fits of the compacted text, so it always
      fits and is never longer than the input. A negative budget is refused. */
  method CompactToBudget(c: Compactor, text: string, maxTokens: int) returns (r: Option<string>)
    requires c.Valid()
    ensures r.None? <==> maxTokens < 0
    ensures r.Some? ==> c.estimate(r.value) <= maxTokens && |r.value| <= |text|
    ensures r.Some? ==> IsFitted(c, Passes(c, text, |text| + 2), maxTokens, r.value)
  {
    if maxTokens < 0 { return None; }
    hide Reduce, Passes, IsTruncation, SplitOnFeed;
    var compacted := Compact(c, text);
    if c.estimate(compacted) <= maxTokens { return Some(compacted); }
    var fitted := DropLines(c, compacted, maxTokens);
    r := Some(fitted);
  }

  /** The last two stages: whole lines first, characters only when none can stay. */
  method DropLines(c: Compactor, compacted: string, maxTokens: nat) returns (r: string)
    requires c.Valid() && Reduce(c, compacted) == compacted && c.estimate(compacted) > maxTokens
    ensures c.estimate(r) <= maxTokens && |r| <= |compacted|
    ensures IsFitted(c, compacted, maxTokens, r)
  {
    hide Reduce, IsTruncation, SplitOnFeed, Join, StripBreaks, Compactor.Valid;
    var lines := SplitOnFeed(compacted);
    ghost var all := lines;
    assert all[..|all|] == all;
    while |lines| > 1
      invariant 1 <= |lines| <= |all| && lines == all[..|lines|]
      invariant NoCutFits(c, all, |lines|, maxTokens)
      decreases |lines|
    {
      lines := lines[..|lines| - 1];
      assert lines == all[..|lines|];
      CutIsShorter(c, compacted, |lines|);
      r := StripBreaks(Join(lines));
      if c.estimate(r) <= maxTokens {
        assert r == Cut(all, |lines|);
        return;
      }
    }
    CutIsShorter(c, compacted, 1);
    r := TruncateToTokens(c, StripBreaks(Join(lines)), maxTokens);
  }

  lemma LinesOfCompact(c: Compactor, t: string)
    requires c.Valid() && Reduce(c, t) == t
    ensures t != "" ==> Tidy(c, SplitOnFeed(t))
    ensures t == "" ==> SplitOnFeed(t) == [""]
    ensures Join(SplitOnFeed(t)) == t
  {
    if t != "" {
      FixedIsTidy(c, t);
      SplitOnFeedOfJoin(SplitLines(t));
    }
  }

  lemma {:induction false} JoinPrefix(lines: seq<string>, k: nat)
    requires k <= |lines|
    ensures |Join(lines[..k])| <= |Join(lines)|
  {
    JoinLength(lines);
    JoinLength(lines[..k]);
    WeightConcat(lines[..k], lines[k..]);
    assert lines == lines[..k] + lines[k..];
  }

  lemma CutIsShorter(c: Compactor, t: string, k: nat)
    requires c.Valid() && Reduce(c, t) == t && 1 <= k <= |SplitOnFeed(t)|
    ensures var lines := SplitOnFeed(t);
            |Cut(lines, k)| <= |t| && Reduce(c, Cut(lines, k)) == Cut(lines, k)
  {
    LinesOfCompact(c, t);
    var lines := SplitOnFeed(t);
    JoinPrefix(lines, k);
    if t != "" {
      hide Tidy, SplitOnFeed, Reduce;
      CutIsCompact(c, lines, k);
    } else {
      assert lines[..k] == [""];
    }
  }

  // -- the default estimator ------------------------------------------------

  function Ceil(x: real): int { -((-x).Floor) }

  /** `CharEstimator.estimate` for a positive characters-per-token ratio. */
  function CharEstimate(charsPerToken: real, s: string): (r: nat)
    requires charsPerToken > 0.0
  {
    var tokens := |s| as real / charsPerToken;
    assert tokens >= 0.0;
    Ceil(tokens)
  }

  /** It never prices a text too low, and one token less would. */
  lemma CharEstimateIsLeast(charsPerToken: real, s: string)
    requires charsPerToken > 0.0
    ensures var r: int := CharEstimate(charsPerToken, s);
            (r - 1) as real * charsPerToken < |s| as real <= r as real * charsPerToken
  {
    var n, r: int := |s| as real, CharEstimate(charsPerToken, s);
    var tokens := n / charsPerToken;
    assert tokens * charsPerToken == n;
    assert (r - 1) as real < tokens <= r as real;
    Scaled((r - 1) as real, tokens, charsPerToken);
    Scaled(tokens, r as real, charsPerToken);
  }

  lemma Scaled(a: real, b: real, d: real)
    requires d > 0.0
    ensures a < b ==> a * d < b * d
    ensures a <= b ==> a * d <= b * d
  {
    assert b * d - a * d == (b - a) * d;
  }

  lemma DivMonotone(a: real, b: real, d: real)
    requires a <= b && d > 0.0
    ensures a / d <= b / d
  {
    assert b / d - a / d == (b - a) / d;
  }

  /** It prices the empty text at nothing and grows with length, so the searches
      above find the largest prefix, marker or not. */
  lemma CharEstimateGrows(c: Compactor, charsPerToken: real, text: string, suffix: string)
    requires charsPerToken > 0.0 && forall s :: c.estimate(s) == CharEstimate(charsPerToken, s)
    ensures c.estimate("") == 0 && GrowsAlong(c, text, suffix)
  {
    forall i, j | 0 <= i <= j <= |text|
      ensures c.estimate(text[..i] + suffix) <= c.estimate(text[..j] + suffix)
    {
      DivMonotone(|text[..i] + suffix| as real, |text[..j] + suffix| as real, charsPerToken);
    }
  }
}
