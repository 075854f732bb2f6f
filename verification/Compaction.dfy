/** Deterministic text reduction (`src/paa/context/compaction.py`) without a
    summarizer. The markdown rules enter as an arbitrary line rewrite that only
    deletes characters; everything after them is concrete. */
module Compaction {
  import opened Ledger

  // -- characters -----------------------------------------------------------

  /** Line boundaries of `str.splitlines`. */
  predicate IsBreak(c: char) {
    c in {'\n', '\r', '\U{0B}', '\U{0C}', '\U{1C}', '\U{1D}', '\U{1E}', '\U{85}', '\U{2028}', '\U{2029}'}
  }

  /** Whitespace that is not a line boundary. */
  predicate IsBlank(c: char) {
    c in {' ', '\t', '\U{1F}', '\U{A0}', '\U{1680}', '\U{202F}', '\U{205F}', '\U{3000}'} || '\U{2000}' <= c <= '\U{200A}'
  }

  /** A line after splitting: no boundary inside. */
  predicate Unbroken(s: string) { forall i :: 0 <= i < |s| ==> !IsBreak(s[i]) }

  /** The only blank left is the space. */
  predicate Spaced(s: string) { forall i :: 0 <= i < |s| ==> IsBlank(s[i]) ==> s[i] == ' ' }

  /** `s` is `t` with characters deleted. */
  predicate Deletes(s: string, t: string) {
    if s == "" then true
    else t != "" && ((s[0] == t[0] && Deletes(s[1..], t[1..])) || Deletes(s, t[1..]))
  }

  lemma {:induction false} DeletesFacts(s: string, t: string)
    requires Deletes(s, t)
    ensures |s| <= |t| && (|s| == |t| ==> s == t)
    ensures Unbroken(t) ==> Unbroken(s)
    ensures Spaced(t) ==> Spaced(s)
    decreases |t|
  {
    if s != "" {
      if s[0] == t[0] && Deletes(s[1..], t[1..]) {
        DeletesFacts(s[1..], t[1..]);
        assert s == [s[0]] + s[1..] && t == [t[0]] + t[1..];
      } else {
        DeletesFacts(s, t[1..]);
      }
    }
  }

  // -- configuration --------------------------------------------------------

  /** `maxLineChars` leaves room for the marker, as the constructor demands. */
  datatype Compactor = Compactor(markdown: string -> string, maxLineChars: nat, ellipsis: string, estimate: string -> nat) {
    ghost predicate Valid() {
      && maxLineChars > |ellipsis| && estimate("") == 0
      && forall s :: Deletes(markdown(s), s)
    }
  }

  // -- one line -------------------------------------------------------------

  /** `_HORIZONTAL_WS.sub(" ", line)` */
  function Collapse(s: string): string {
    if s == "" then ""
    else
      var rest := Collapse(s[1..]);
      if !IsBlank(s[0]) then [s[0]] + rest
      else if rest != "" && rest[0] == ' ' then rest
      else " " + rest
  }

  lemma {:induction false} CollapseFacts(s: string)
    requires Unbroken(s)
    ensures |Collapse(s)| <= |s| && Unbroken(Collapse(s)) && Spaced(Collapse(s))
    ensures Spaced(s) && |Collapse(s)| == |s| ==> Collapse(s) == s
  {
    if s != "" { CollapseFacts(s[1..]); }
  }

  function TrimLeft(s: string): string {
    if s != "" && (IsBlank(s[0]) || IsBreak(s[0])) then TrimLeft(s[1..]) else s
  }

  function TrimRight(s: string): string {
    if s != "" && (IsBlank(s[|s| - 1]) || IsBreak(s[|s| - 1])) then TrimRight(s[..|s| - 1]) else s
  }

  lemma {:induction false} TrimLeftFacts(s: string)
    ensures |TrimLeft(s)| <= |s| && (|TrimLeft(s)| == |s| ==> TrimLeft(s) == s)
    ensures Unbroken(s) ==> Unbroken(TrimLeft(s))
    ensures Spaced(s) ==> Spaced(TrimLeft(s))
  {
    if s != "" { TrimLeftFacts(s[1..]); }
  }

  lemma {:induction false} TrimRightFacts(s: string)
    ensures |TrimRight(s)| <= |s| && (|TrimRight(s)| == |s| ==> TrimRight(s) == s)
    ensures Unbroken(s) ==> Unbroken(TrimRight(s))
    ensures Spaced(s) ==> Spaced(TrimRight(s))
  {
    if s != "" { TrimRightFacts(s[..|s| - 1]); }
  }

  /** `str.strip` */
  function Strip(s: string): string { TrimRight(TrimLeft(s)) }

  function Truncate(c: Compactor, s: string): string
    requires c.maxLineChars > |c.ellipsis|
  {
    if |s| > c.maxLineChars then s[..c.maxLineChars - |c.ellipsis|] + c.ellipsis else s
  }

  /** `_reduce_line` */
  function ReduceLine(c: Compactor, line: string): string
    requires c.maxLineChars > |c.ellipsis|
  {
    Truncate(c, Strip(Collapse(c.markdown(line))))
  }

  predicate Brief(c: Compactor, line: string) { |line| <= c.maxLineChars }

  /** A line never grows and ends up brief; one that is too long shrinks. A brief line
      loses every odd blank, and if it was already spaced can only stay the same or
      shrink. The marker may hold anything: only a line that is too long receives it. */
  lemma ReduceLineFacts(c: Compactor, line: string)
    requires c.Valid() && Unbroken(line)
    ensures |ReduceLine(c, line)| <= |line| && Brief(c, ReduceLine(c, line))
    ensures !Brief(c, line) ==> |ReduceLine(c, line)| < |line|
    ensures Brief(c, line) ==> Unbroken(ReduceLine(c, line)) && Spaced(ReduceLine(c, line))
    ensures Brief(c, line) && Spaced(line) && |ReduceLine(c, line)| == |line| ==> ReduceLine(c, line) == line
  {
    var a := c.markdown(line);
    DeletesFacts(a, line);
    CollapseFacts(a);
    TrimLeftFacts(Collapse(a));
    TrimRightFacts(TrimLeft(Collapse(a)));
  }

  // -- a list of lines ------------------------------------------------------

  function FirstBreak(t: string): (k: nat)
    ensures k <= |t| && Unbroken(t[..k]) && (k < |t| ==> IsBreak(t[k]))
  {
    if t == "" || IsBreak(t[0]) then 0
    else
      var k := FirstBreak(t[1..]);
      assert t[..k + 1] == [t[0]] + t[1..][..k];
      k + 1
  }

  /** `str.splitlines`: a carriage return and line feed count as one boundary, and a
      final boundary opens no further line. */
  function SplitLines(t: string): (lines: seq<string>)
    ensures forall l :: l in lines ==> Unbroken(l)
    decreases |t|
  {
    if t == "" then []
    else
      var k := FirstBreak(t);
      if k == |t| then
        assert t[..k] == t;
        [t]
      else [t[..k]] + SplitLines(t[AfterBreak(t, k)..])
  }

  function AfterBreak(t: string, k: nat): (r: nat)
    requires k < |t|
    ensures k < r <= |t|
  {
    if t[k] == '\r' && k + 1 < |t| && t[k + 1] == '\n' then k + 2 else k + 1
  }

  /** `"\n".join` */
  function Join(lines: seq<string>): string {
    if lines == [] then ""
    else if |lines| == 1 then lines[0]
    else lines[0] + "\n" + Join(lines[1..])
  }

  /** Length of the lines with one boundary after each. */
  function Weight(lines: seq<string>): nat {
    if lines == [] then 0 else |lines[0]| + 1 + Weight(lines[1..])
  }

  lemma {:induction false} JoinLength(lines: seq<string>)
    ensures |Join(lines)| == if lines == [] then 0 else Weight(lines) - 1
  {
    if |lines| > 1 { JoinLength(lines[1..]); }
  }

  lemma {:induction false} SplitWeight(t: string)
    ensures Weight(SplitLines(t)) <= |t| + 1
    ensures t != "" ==> SplitLines(t) != []
    decreases |t|
  {
    if t != "" {
      var k := FirstBreak(t);
      if k < |t| {
        SplitWeight(t[AfterBreak(t, k)..]);
        var tail := t[AfterBreak(t, k)..];
        assert SplitLines(t)[1..] == SplitLines(tail);
        if tail == "" { assert SplitLines(tail) == []; }
      }
    }
  }

  /** Only line feeds break lines, and only spaces are blank. */
  predicate Normal(t: string) {
    forall i :: 0 <= i < |t| ==> (IsBreak(t[i]) ==> t[i] == '\n') && (IsBlank(t[i]) ==> t[i] == ' ')
  }

  /** Splitting a normal text and joining it again changes nothing but a final
      line feed. */
  lemma {:induction false} SplitJoin(t: string)
    requires Normal(t)
    ensures forall l :: l in SplitLines(t) ==> Spaced(l)
    ensures Weight(SplitLines(t)) == |t| + 1 ==> Join(SplitLines(t)) == t
    decreases |t|
  {
    if t != "" {
      var k := FirstBreak(t);
      if k < |t| {
        var tail := t[AfterBreak(t, k)..];
        assert t[k] == '\n' && tail == t[k + 1..];
        SplitJoin(tail);
        SplitWeight(tail);
        var lines := SplitLines(t);
        assert lines == [t[..k]] + SplitLines(tail) && lines[1..] == SplitLines(tail);
        assert t == t[..k] + "\n" + tail;
      }
    }
  }

  lemma {:induction false} JoinIsNormal(lines: seq<string>)
    requires forall l :: l in lines ==> Unbroken(l) && Spaced(l)
    ensures Normal(Join(lines))
  {
    if lines != [] {
      assert lines[0] in lines;
      if |lines| > 1 { JoinIsNormal(lines[1..]); }
    }
  }

  function ReduceLines(c: Compactor, lines: seq<string>): (r: seq<string>)
    requires c.maxLineChars > |c.ellipsis|
    ensures |r| == |lines|
  {
    if lines == [] then [] else [ReduceLine(c, lines[0])] + ReduceLines(c, lines[1..])
  }

  /** `rest` filtered against what has been kept so far: repeated lines and repeated
      blank lines are dropped. */
  function Distinct(kept: seq<string>, rest: seq<string>): seq<string>
    decreases |rest|
  {
    if rest == [] then kept
    else Distinct(if Keeps(kept, rest[0]) then kept + [rest[0]] else kept, rest[1..])
  }

  predicate Keeps(kept: seq<string>, line: string) {
    if line == "" then kept == [] || kept[|kept| - 1] != "" else line !in kept
  }

  function DropLeading(lines: seq<string>): seq<string> {
    if lines != [] && lines[0] == "" then DropLeading(lines[1..]) else lines
  }

  function DropTrailing(lines: seq<string>): seq<string> {
    if lines != [] && lines[|lines| - 1] == "" then DropTrailing(lines[..|lines| - 1]) else lines
  }

  /** `_reduce_once` as a function. */
  function Reduce(c: Compactor, t: string): string
    requires c.maxLineChars > |c.ellipsis|
  {
    Join(DropTrailing(DropLeading(Distinct([], ReduceLines(c, SplitLines(t))))))
  }

  // -- a pass never lengthens, and shortens unless it changes nothing -------

  lemma {:induction false} WeightConcat(a: seq<string>, b: seq<string>)
    ensures Weight(a + b) == Weight(a) + Weight(b)
  {
    if a == [] {
      assert a + b == b;
    } else {
      WeightConcat(a[1..], b);
      assert (a + b)[1..] == a[1..] + b;
    }
  }

  predicate AllBrief(c: Compactor, lines: seq<string>) { forall l :: l in lines ==> Brief(c, l) }

  lemma {:induction false} ReduceLinesFacts(c: Compactor, lines: seq<string>)
    requires c.Valid() && forall l :: l in lines ==> Unbroken(l)
    ensures Weight(ReduceLines(c, lines)) <= Weight(lines) && AllBrief(c, ReduceLines(c, lines))
    ensures !AllBrief(c, lines) ==> Weight(ReduceLines(c, lines)) < Weight(lines)
    ensures AllBrief(c, lines) ==> forall l :: l in ReduceLines(c, lines) ==> Unbroken(l) && Spaced(l)
    ensures AllBrief(c, lines) && (forall l :: l in lines ==> Spaced(l)) && Weight(ReduceLines(c, lines)) == Weight(lines)
            ==> ReduceLines(c, lines) == lines
  {
    if lines != [] {
      assert lines[0] in lines;
      ReduceLineFacts(c, lines[0]);
      ReduceLinesFacts(c, lines[1..]);
      hide ReduceLine, Unbroken, Spaced;
      assert lines == [lines[0]] + lines[1..];
      assert AllBrief(c, lines) <==> Brief(c, lines[0]) && AllBrief(c, lines[1..]);
    }
  }

  // -- the lines of a reduced text are brief --------------------------------

  /** No stretch without a line boundary is longer than `n`. */
  predicate Short(t: string, n: nat) {
    forall i, j :: 0 <= i <= j <= |t| && Unbroken(t[i..j]) ==> j - i <= n
  }

  lemma {:induction false} ShortSplit(t: string, n: nat)
    requires Short(t, n)
    ensures forall l :: l in SplitLines(t) ==> |l| <= n
    decreases |t|
  {
    if t != "" {
      var k := FirstBreak(t);
      assert t[0..k] == t[..k];
      if k < |t| {
        var r := AfterBreak(t, k);
        var tail := t[r..];
        forall i, j | 0 <= i <= j <= |tail| && Unbroken(tail[i..j]) ensures j - i <= n {
          assert t[r + i..r + j] == tail[i..j];
        }
        ShortSplit(tail, n);
      }
    }
  }

  lemma {:induction false} JoinIsShort(lines: seq<string>, n: nat)
    requires forall l :: l in lines ==> |l| <= n
    ensures Short(Join(lines), n)
  {
    if lines != [] {
      assert lines[0] in lines;
      if |lines| > 1 {
        JoinIsShort(lines[1..], n);
        ShortAround(lines[0], Join(lines[1..]), n);
      }
    }
  }

  lemma BreakInside(t: string, i: nat, j: nat, k: nat)
    requires i <= k < j <= |t| && IsBreak(t[k])
    ensures !Unbroken(t[i..j])
  {
    assert t[i..j][k - i] == t[k];
  }

  lemma ShortAround(first: string, rest: string, n: nat)
    requires |first| <= n && Short(rest, n)
    ensures Short(first + "\n" + rest, n)
  {
    var t := first + "\n" + rest;
    var k := |first| + 1;
    forall i, j | 0 <= i <= j <= |t| && Unbroken(t[i..j]) ensures j - i <= n {
      if i >= k {
        assert t[i..j] == rest[i - k..j - k];
      } else if j >= k {
        BreakInside(t, i, j, |first|);
      }
    }
  }

  lemma BriefAfterJoin(c: Compactor, lines: seq<string>)
    requires AllBrief(c, lines)
    ensures AllBrief(c, SplitLines(Join(lines)))
  {
    JoinIsShort(lines, c.maxLineChars);
    ShortSplit(Join(lines), c.maxLineChars);
  }

  lemma {:induction false} DistinctFacts(kept: seq<string>, rest: seq<string>)
    ensures Weight(Distinct(kept, rest)) <= Weight(kept) + Weight(rest)
    ensures Weight(Distinct(kept, rest)) == Weight(kept) + Weight(rest) ==> Distinct(kept, rest) == kept + rest
    ensures forall l :: l in Distinct(kept, rest) ==> l in kept || l in rest
    decreases |rest|
  {
    if rest == [] {
      assert kept + [] == kept;
    } else {
      var longer := if Keeps(kept, rest[0]) then kept + [rest[0]] else kept;
      DistinctFacts(longer, rest[1..]);
      WeightConcat(kept, [rest[0]]);
      assert [rest[0]][1..] == [];
      assert rest == [rest[0]] + rest[1..];
      if Keeps(kept, rest[0]) { assert kept + [rest[0]] + rest[1..] == kept + rest; }
    }
  }

  lemma {:induction false} DropLeadingFacts(lines: seq<string>)
    ensures Weight(DropLeading(lines)) <= Weight(lines)
    ensures Weight(DropLeading(lines)) == Weight(lines) ==> DropLeading(lines) == lines
    ensures forall l :: l in DropLeading(lines) ==> l in lines
  {
    if lines != [] { DropLeadingFacts(lines[1..]); }
  }

  lemma {:induction false} DropTrailingFacts(lines: seq<string>)
    ensures Weight(DropTrailing(lines)) <= Weight(lines)
    ensures Weight(DropTrailing(lines)) == Weight(lines) ==> DropTrailing(lines) == lines
    ensures forall l :: l in DropTrailing(lines) ==> l in lines
  {
    if lines != [] {
      var n := |lines| - 1;
      DropTrailingFacts(lines[..n]);
      WeightConcat(lines[..n], [lines[n]]);
      assert [lines[n]][1..] == [];
      assert lines == lines[..n] + [lines[n]];
    }
  }

  /** What one pass does: the result is no longer than the input and all its lines are
      brief; a text with a line too long shrinks; any other becomes normal, and a pass
      over a normal one that removes nothing changes nothing. */
  lemma ReduceFacts(c: Compactor, t: string)
    requires c.Valid()
    ensures |Reduce(c, t)| <= |t| && AllBrief(c, SplitLines(Reduce(c, t)))
    ensures !AllBrief(c, SplitLines(t)) ==> |Reduce(c, t)| < |t|
    ensures AllBrief(c, SplitLines(t)) ==> Normal(Reduce(c, t))
    ensures AllBrief(c, SplitLines(t)) && Normal(t) && |Reduce(c, t)| == |t| ==> Reduce(c, t) == t
  {
    var lines := SplitLines(t);
    var reduced := ReduceLines(c, lines);
    var distinct := Distinct([], reduced);
    var out := DropTrailing(DropLeading(distinct));
    SplitWeight(t);
    if Normal(t) { SplitJoin(t); }
    hide SplitLines, ReduceLines, Distinct, DropLeading, DropTrailing, Normal, Unbroken, Spaced;
    ReduceLinesFacts(c, lines);
    DistinctFacts([], reduced);
    DropLeadingFacts(distinct);
    DropTrailingFacts(DropLeading(distinct));
    JoinLength(out);
    BriefAfterJoin(c, out);
    if AllBrief(c, lines) { JoinIsNormal(out); }
    if AllBrief(c, lines) && Normal(t) && |Join(out)| == |t| && t != "" {
      assert out != [] && Weight(out) == Weight(lines) == |t| + 1;
      assert [] + reduced == reduced;
    }
    if t == "" { EmptyReduces(c); }
  }

  lemma EmptyReduces(c: Compactor)
    requires c.maxLineChars > |c.ellipsis|
    ensures Reduce(c, "") == "" && SplitLines("") == []
  {
  }

  /** `_reduce_once` */
  method ReduceOnce(c: Compactor, text: string) returns (r: string)
    requires c.Valid()
    ensures r == Reduce(c, text)
  {
    var rawLines := SplitLines(text);
    var reduced: seq<string> := [];
    for i := 0 to |rawLines|
      invariant reduced + ReduceLines(c, rawLines[i..]) == ReduceLines(c, rawLines)
    {
      assert rawLines[i..][1..] == rawLines[i + 1..];
      var line := ReduceLine(c, rawLines[i]);
      assert reduced + ([line] + ReduceLines(c, rawLines[i + 1..])) == reduced + [line] + ReduceLines(c, rawLines[i + 1..]);
      reduced := reduced + [line];
    }
    assert reduced == ReduceLines(c, rawLines);
    var out: seq<string> := [];
    var seen: set<string> := {};
    for i := 0 to |reduced|
      invariant forall l :: l in seen <==> l in out && l != ""
      invariant Distinct(out, reduced[i..]) == Distinct([], reduced)
    {
      assert reduced[i..][1..] == reduced[i + 1..];
      var line := reduced[i];
      if line == "" {
        if out != [] && out[|out| - 1] == "" { continue; }
        out := out + [""];
        continue;
      }
      if line in seen { continue; }
      seen := seen + {line};
      out := out + [line];
    }
    while out != [] && out[0] == ""
      invariant DropLeading(out) == DropLeading(Distinct([], reduced))
      decreases |out|
    {
      out := out[1..];
    }
    while out != [] && out[|out| - 1] == ""
      invariant DropTrailing(out) == DropTrailing(DropLeading(Distinct([], reduced)))
      decreases |out|
    {
      out := out[..|out| - 1];
    }
    r := Join(out);
  }

  function Passes(c: Compactor, t: string, n: nat): string
    requires c.maxLineChars > |c.ellipsis|
  {
    if n == 0 then t else Reduce(c, Passes(c, t, n - 1))
  }

  lemma {:induction false} PassesStay(c: Compactor, t: string, n: nat, m: nat)
    requires c.maxLineChars > |c.ellipsis| && n <= m && Reduce(c, Passes(c, t, n)) == Passes(c, t, n)
    ensures Passes(c, t, m) == Passes(c, t, n)
  {
    hide Reduce;
    if n < m { PassesStay(c, t, n, m - 1); }
  }

  /** `compact`: `len(text) + 2` passes always suffice, so the result is a fixed
      point of the reduction, and a fixed point is returned unchanged. */
  method Compact(c: Compactor, text: string) returns (r: string)
    requires c.Valid()
    ensures Reduce(c, r) == r && |r| <= |text|
    ensures r == Passes(c, text, |text| + 2)
    ensures Reduce(c, text) == text ==> r == text
  {
    hide Reduce, Normal, AllBrief, SplitLines;
    var current := text;
    var passes: nat := 0;
    while passes < |text| + 2
      invariant passes <= |text| + 2
      invariant current == Passes(c, text, passes) && |current| <= |text|
      invariant passes > 0 ==> AllBrief(c, SplitLines(current))
      invariant passes > 0 ==> (Normal(current) && |current| <= |text| - (passes - 1)) || (passes == 1 && |current| < |text|)
      invariant Reduce(c, text) == text ==> current == text
    {
      var next := ReduceOnce(c, current);
      ReduceFacts(c, current);
      if next == current {
        PassesStay(c, text, passes, |text| + 2);
        return current;
      }
      current := next;
      passes := passes + 1;
    }
    assert false;
    r := current;
  }

  /** Compacting twice is compacting once. */
  method CompactTwice(c: Compactor, text: string) returns (once: string, twice: string)
    requires c.Valid()
    ensures twice == once
  {
    once := Compact(c, text);
    twice := Compact(c, once);
  }
}
