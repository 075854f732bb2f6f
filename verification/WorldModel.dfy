/** Managed blocks inside human-edited documents (`src/paa/memory/world_model.py`).
    The pattern `BEGIN \n? (.*?) \n? END` is rendered by what it matches: the first
    begin marker, and the first end marker after it. */
module WorldModel {
  import opened Ledger
  import opened Compaction

  // -- searching ------------------------------------------------------------

  predicate Occurs(text: string, pat: string, k: nat) {
    k + |pat| <= |text| && forall j :: 0 <= j < |pat| ==> text[k + j] == pat[j]
  }

  /** First occurrence of `pat` at or after `from`. */
  function Find(text: string, pat: string, from: nat): (r: Option<nat>)
    ensures r.Some? ==> from <= r.value && Occurs(text, pat, r.value)
    ensures forall k :: from <= k && (r.None? || k < r.value) ==> !Occurs(text, pat, k)
    decreases |text| - from
  {
    if from + |pat| > |text| then None
    else if Occurs(text, pat, from) then Some(from)
    else Find(text, pat, from + 1)
  }

  lemma FindFirst(text: string, pat: string, from: nat, k: nat)
    requires from <= k && Occurs(text, pat, k)
    requires forall j :: from <= j < k ==> !Occurs(text, pat, j)
    ensures Find(text, pat, from) == Some(k)
  {
    hide Occurs;
  }

  predicate Contains(text: string, pat: string) { Find(text, pat, 0).Some? }

  // -- markers and blocks ---------------------------------------------------

  datatype Markers = Markers(begin: string, end: string)

  /** `_BEGIN` and `_END` for one section. */
  function MarkersOf(section: string): Markers {
    Markers("<!-- paa:managed:BEGIN " + section + " -->", "<!-- paa:managed:END " + section + " -->")
  }

  predicate OneLine(s: string) { forall i :: 0 <= i < |s| ==> s[i] != '\n' }

  predicate Solid(c: char) { !IsBlank(c) && !IsBreak(c) }

  /** All that matters about the markers. */
  predicate Good(m: Markers) {
    && OneLine(m.begin) && OneLine(m.end) && m.begin != "" && m.end != ""
    && Solid(m.begin[0]) && Solid(m.begin[|m.begin| - 1])
    && forall k :: 0 <= k < |m.begin| ==> !Occurs(m.begin, m.end, k)
  }

  lemma MarkersAreGood(section: string)
    ensures Good(MarkersOf(section)) <==> OneLine(section)
  {
    var m := MarkersOf(section);
    EndNotInBegin(section);
    hide Occurs;
    assert m.begin[|m.begin| - 1] == '>';
    var n := |"<!-- paa:managed:BEGIN "|;
    assert forall i :: 0 <= i < |section| ==> m.begin[n + i] == section[i];
  }

  lemma EndNotInBegin(section: string)
    ensures var m := MarkersOf(section); forall k :: 0 <= k < |m.begin| ==> !Occurs(m.begin, m.end, k)
  {
    var m := MarkersOf(section);
    var b, e := m.begin, m.end;
    assert b[17] == 'B' && e[17] == 'E' && e[0] == '<' && b[1] == '!' && b[2] == '-';
    assert |b| == |e| + 2;
    hide MarkersOf;
    forall k | 0 <= k < |b| ensures !Occurs(b, e, k) {
      assert k == 0 ==> b[k + 17] != e[17];
      assert 0 < k <= 2 ==> b[k + 0] != e[0];
    }
  }

  function FindBegin(text: string, m: Markers): Option<nat> { Find(text, m.begin, 0) }

  /** The end marker that closes a begin marker at `i`. */
  function FindEnd(text: string, m: Markers, i: nat): Option<nat> { Find(text, m.end, i + |m.begin|) }

  /** `_has_block` */
  predicate HasBlock(text: string, m: Markers) {
    FindBegin(text, m).Some? && FindEnd(text, m, FindBegin(text, m).value).Some?
  }

  /** A begin marker with no end marker after it. */
  predicate Unclosed(text: string, m: Markers) {
    FindBegin(text, m).Some? && FindEnd(text, m, FindBegin(text, m).value).None?
  }

  function DropFirstFeed(s: string): string { if s != "" && s[0] == '\n' then s[1..] else s }
  function DropLastFeed(s: string): string { if s != "" && s[|s| - 1] == '\n' then s[..|s| - 1] else s }

  /** What a match between `BEGIN` and `END` reads back as. */
  function Body(s: string): string { Strip(DropLastFeed(DropFirstFeed(s))) }

  /** `_extract_block` */
  function ExtractBlock(text: string, m: Markers): Option<string> {
    if !HasBlock(text, m) then None
    else
      var i := FindBegin(text, m).value;
      Some(Body(text[i + |m.begin|..FindEnd(text, m, i).value]))
  }

  function Managed(m: Markers, content: string): string {
    m.begin + "\n" + Strip(content) + "\n" + m.end
  }

  /** `_replace_block` */
  function ReplaceBlock(text: string, m: Markers, managed: string): string
    requires HasBlock(text, m)
  {
    var i := FindBegin(text, m).value;
    var q := FindEnd(text, m, i).value;
    text[..i] + managed + text[q + |m.end|..]
  }

  /** A document made ready for an appended block. */
  function Lead(text: string): string {
    text + (if text != "" && text[|text| - 1] == '\n' then "" else "\n") + "\n"
  }

  /** `update_belief_state` on an existing document. */
  function Update(text: string, m: Markers, content: string): string {
    if HasBlock(text, m) then ReplaceBlock(text, m, Managed(m, content))
    else Lead(text) + Managed(m, content) + "\n"
  }

  // -- stripping ------------------------------------------------------------

  lemma {:induction false} TrimLeftIsSuffix(s: string) returns (l: nat)
    ensures l <= |s| && TrimLeft(s) == s[l..]
    ensures l < |s| ==> Solid(s[l])
  {
    if s != "" && !Solid(s[0]) {
      var k := TrimLeftIsSuffix(s[1..]);
      l := k + 1;
    } else {
      l := 0;
    }
  }

  lemma {:induction false} TrimRightIsPrefix(s: string) returns (r: nat)
    ensures r <= |s| && TrimRight(s) == s[..r]
    ensures r > 0 ==> Solid(s[r - 1])
  {
    if s != "" && !Solid(s[|s| - 1]) {
      r := TrimRightIsPrefix(s[..|s| - 1]);
    } else {
      r := |s|;
      assert s[..r] == s;
    }
  }

  /** Stripping cuts a slice that starts and ends with a character to keep. */
  lemma StripIsSlice(s: string) returns (l: nat, r: nat)
    ensures l <= r <= |s| && Strip(s) == s[l..r]
    ensures l < r ==> Solid(s[l]) && Solid(s[r - 1])
  {
    l := TrimLeftIsSuffix(s);
    var k := TrimRightIsPrefix(s[l..]);
    r := l + k;
  }

  lemma StripIsIdempotent(s: string)
    ensures Strip(Strip(s)) == Strip(s)
    ensures Strip(s) != "" ==> Solid(Strip(s)[0]) && Solid(Strip(s)[|Strip(s)| - 1])
  {
    var l, r := StripIsSlice(s);
  }

  lemma {:induction false} TrimLeftStopsAtSolid(s: string, k: nat)
    requires k < |s| && Solid(s[k])
    ensures |TrimLeft(s)| >= |s| - k
  {
    if !Solid(s[0]) { TrimLeftStopsAtSolid(s[1..], k - 1); }
  }

  lemma {:induction false} TrimRightStopsAtSolid(s: string, k: nat)
    requires k < |s| && Solid(s[k])
    ensures |TrimRight(s)| > k
  {
    if !Solid(s[|s| - 1]) { TrimRightStopsAtSolid(s[..|s| - 1], k); }
  }

  /** Stripping never reaches past a character to keep. */
  lemma StripSpans(s: string, a: nat, b: nat)
    requires a <= b < |s| && Solid(s[a]) && Solid(s[b])
    ensures |Strip(s)| > b - a
  {
    var l := TrimLeftIsSuffix(s);
    TrimLeftStopsAtSolid(s, a);
    TrimRightStopsAtSolid(s[l..], b - l);
  }

  // -- a freshly written block ----------------------------------------------

  /** `text` is `pre`, the block around `c`, and `post`. */
  predicate Laid(text: string, pre: string, m: Markers, c: string, post: string) {
    var at := |pre| + |m.begin|;
    var q := at + 1 + |c| + 1;
    && |text| == q + |m.end| + |post|
    && (forall j :: 0 <= j < |pre| ==> text[j] == pre[j])
    && Occurs(text, m.begin, |pre|)
    && text[at] == '\n' && text[q - 1] == '\n'
    && (forall j :: 0 <= j < |c| ==> text[at + 1 + j] == c[j])
    && Occurs(text, m.end, q)
    && (forall j :: 0 <= j < |post| ==> text[q + |m.end| + j] == post[j])
  }

  lemma ManagedIsLaid(pre: string, m: Markers, content: string, post: string)
    ensures Laid(pre + Managed(m, content) + post, pre, m, Strip(content), post)
  {
    hide Strip;
    var c := Strip(content);
    var block := Managed(m, content);
    var at := |m.begin|;
    assert block[at] == '\n' && block[at + 1 + |c|] == '\n';
    assert forall j :: 0 <= j < |m.begin| ==> block[j] == m.begin[j];
    assert forall j :: 0 <= j < |c| ==> block[at + 1 + j] == c[j];
    assert forall j :: 0 <= j < |m.end| ==> block[at + 1 + |c| + 1 + j] == m.end[j];
    BlockIsLaid(pre, m, c, post, block);
  }

  lemma BlockIsLaid(pre: string, m: Markers, c: string, post: string, block: string)
    requires |block| == |m.begin| + 1 + |c| + 1 + |m.end|
    requires block[|m.begin|] == '\n' && block[|m.begin| + 1 + |c|] == '\n'
    requires forall j :: 0 <= j < |m.begin| ==> block[j] == m.begin[j]
    requires forall j :: 0 <= j < |c| ==> block[|m.begin| + 1 + j] == c[j]
    requires forall j :: 0 <= j < |m.end| ==> block[|m.begin| + 1 + |c| + 1 + j] == m.end[j]
    ensures Laid(pre + block + post, pre, m, c, post)
  {
    var text := pre + block + post;
    assert forall j :: 0 <= j < |block| ==> text[|pre| + j] == block[j];
    var at := |pre| + |m.begin|;
    var q := at + 1 + |c| + 1;
    forall j | 0 <= j < |m.begin| ensures text[|pre| + j] == m.begin[j] { assert text[|pre| + j] == block[j]; }
    forall j | 0 <= j < |c| ensures text[at + 1 + j] == c[j] { assert text[|pre| + (|m.begin| + 1 + j)] == block[|m.begin| + 1 + j]; }
    forall j | 0 <= j < |m.end| ensures text[q + j] == m.end[j] {
      assert text[|pre| + (|m.begin| + 1 + |c| + 1 + j)] == block[|m.begin| + 1 + |c| + 1 + j];
    }
    assert text[|pre| + |m.begin|] == block[|m.begin|];
    assert text[|pre| + (|m.begin| + 1 + |c|)] == block[|m.begin| + 1 + |c|];
  }

  /** An occurrence of a one-line pattern covers no line feed. */
  lemma NoFeedInside(text: string, pat: string, k: nat, feed: nat)
    requires OneLine(pat) && k <= feed < k + |pat| && feed < |text| && text[feed] == '\n'
    ensures !Occurs(text, pat, k)
  {
    assert pat[feed - k] != '\n' && text[k + (feed - k)] != pat[feed - k];
  }

  /** A pattern inside a copied stretch occurs where it does in the original. */
  lemma OccursInCopy(text: string, c: string, at: nat, pat: string, k: nat)
    requires at + |c| <= |text| && k + |pat| <= |c|
    requires forall x :: 0 <= x < |c| ==> text[at + x] == c[x]
    ensures Occurs(text, pat, at + k) <==> Occurs(c, pat, k)
  {
    forall x | 0 <= x < |pat| ensures text[at + k + x] == pat[x] <==> c[k + x] == pat[x] {
      assert text[at + (k + x)] == c[k + x];
    }
  }

  /** End markers between the begin marker and the block's own end are exactly those
      inside the content. */
  lemma EndsInsideContent(text: string, pre: string, m: Markers, c: string, post: string, j: nat)
    requires Good(m) && Laid(text, pre, m, c, post)
    requires var at := |pre| + |m.begin|; at <= j < at + 1 + |c| + 1
    ensures Occurs(text, m.end, j) <==> j > |pre| + |m.begin| && Occurs(c, m.end, j - |pre| - |m.begin| - 1)
  {
    var at := |pre| + |m.begin|;
    var q := at + 1 + |c| + 1;
    if j == at {
      NoFeedInside(text, m.end, j, at);
    } else if j + |m.end| > q - 1 {
      NoFeedInside(text, m.end, j, q - 1);
    } else {
      OccursInCopy(text, c, at + 1, m.end, j - at - 1);
    }
  }

  /** Where the end marker of a fresh block is found. */
  lemma FreshEnd(text: string, pre: string, m: Markers, c: string, post: string)
    requires Good(m) && Laid(text, pre, m, c, post)
    ensures var at := |pre| + |m.begin|;
            Find(text, m.end, at)
            == Some(at + 1 + if Contains(c, m.end) then Find(c, m.end, 0).value else |c| + 1)
  {
    var at := |pre| + |m.begin|;
    var p := if Contains(c, m.end) then Find(c, m.end, 0).value else |c| + 1;
    forall j | at <= j < at + 1 + p ensures !Occurs(text, m.end, j) {
      EndsInsideContent(text, pre, m, c, post, j);
    }
    if Contains(c, m.end) { EndsInsideContent(text, pre, m, c, post, at + 1 + p); }
    FindFirst(text, m.end, at, at + 1 + p);
  }

  /** Both markers of a fresh block, when no begin marker comes before it. */
  lemma FreshMarkers(text: string, pre: string, m: Markers, c: string, post: string)
    requires Good(m) && Laid(text, pre, m, c, post)
    requires forall j :: 0 <= j < |pre| ==> !Occurs(text, m.begin, j)
    ensures HasBlock(text, m) && FindBegin(text, m) == Some(|pre|)
    ensures var q := FindEnd(text, m, |pre|).value;
            q == |pre| + |m.begin| + 1 + if Contains(c, m.end) then Find(c, m.end, 0).value else |c| + 1
  {
    FreshEnd(text, pre, m, c, post);
    assert Occurs(text, m.begin, |pre|);
    hide Laid, Occurs, Find, Good;
    FindFirst(text, m.begin, 0, |pre|);
  }

  lemma LaidSlices(text: string, pre: string, m: Markers, c: string, post: string)
    requires Laid(text, pre, m, c, post)
    ensures var at := |pre| + |m.begin|;
            && |text| == at + 1 + |c| + 1 + |m.end| + |post|
            && text[..|pre|] == pre
            && text[at..at + 1 + |c| + 1] == "\n" + c + "\n"
            && text[at + 1 + |c| + 1 + |m.end|..] == post
  {
    hide Occurs;
    var at := |pre| + |m.begin|;
    var inside := text[at..at + 1 + |c| + 1];
    forall x | 0 <= x < |inside| ensures inside[x] == ("\n" + c + "\n")[x] {
      if 0 < x <= |c| { assert text[at + 1 + (x - 1)] == c[x - 1]; }
    }
  }

  /** An end marker found inside the content leaves room for itself. */
  lemma FoundFits(s: string, pat: string, from: nat)
    requires Find(s, pat, from).Some?
    ensures from <= Find(s, pat, from).value && Find(s, pat, from).value + |pat| <= |s|
  {
  }

  /** The body of a fresh block is its content exactly when the content holds no end
      marker. */
  lemma ReadFresh(text: string, pre: string, m: Markers, content: string, post: string)
    requires Good(m) && Laid(text, pre, m, Strip(content), post)
    requires forall j :: 0 <= j < |pre| ==> !Occurs(text, m.begin, j)
    ensures ExtractBlock(text, m) == Some(Strip(content)) <==> !Contains(Strip(content), m.end)
  {
    hide Strip, Occurs, OneLine, Find, Laid, Body;
    var c := Strip(content);
    var at := |pre| + |m.begin|;
    FreshMarkers(text, pre, m, c, post);
    LaidSlices(text, pre, m, c, post);
    var whole := text[at..at + 1 + |c| + 1];
    if Contains(c, m.end) {
      FoundFits(c, m.end, 0);
      var inside := text[at..FindEnd(text, m, |pre|).value];
      assert inside[0] == text[at] == whole[0] == '\n';
      ShortBody(inside, c);
    } else {
      WholeBody(whole, content);
    }
  }

  /** Replacing a fresh block swaps it alone exactly when its content holds no end
      marker; otherwise some of it stays behind. */
  lemma ReplaceFresh(text: string, pre: string, m: Markers, c: string, post: string, managed: string)
    requires Good(m) && Laid(text, pre, m, c, post)
    requires forall j :: 0 <= j < |pre| ==> !Occurs(text, m.begin, j)
    ensures HasBlock(text, m)
    ensures ReplaceBlock(text, m, managed) == pre + managed + post <==> !Contains(c, m.end)
  {
    hide Occurs, OneLine, Find, Laid;
    FreshMarkers(text, pre, m, c, post);
    LaidSlices(text, pre, m, c, post);
    if Contains(c, m.end) {
      FoundFits(c, m.end, 0);
      assert |ReplaceBlock(text, m, managed)| > |pre + managed + post|;
    }
  }

  lemma ShortBody(inside: string, c: string)
    requires inside != "" && inside[0] == '\n' && |inside| <= |c|
    ensures Body(inside) != c
  {
    var l, r := StripIsSlice(DropLastFeed(DropFirstFeed(inside)));
  }

  lemma WholeBody(inside: string, content: string)
    requires var c := Strip(content);
             inside == "\n" + c + "\n"
    ensures Body(inside) == Strip(content)
  {
    StripIsIdempotent(content);
    hide Strip;
    assert DropLastFeed(DropFirstFeed(inside)) == Strip(content);
  }

  // -- where the first begin marker is --------------------------------------

  /** Replacing a block keeps the first begin marker where it was. */
  lemma ReplaceKeepsFirstBegin(text: string, text': string, m: Markers, c: string, post: string, i: nat)
    requires FindBegin(text, m) == Some(i) && Laid(text', text[..i], m, c, post)
    ensures forall j :: 0 <= j < i ==> !Occurs(text', m.begin, j)
  {
    forall j | 0 <= j < i ensures !Occurs(text', m.begin, j) {
      SameStart(text, text', m.begin, i, j);
    }
  }

  lemma SameStart(text: string, text': string, pat: string, i: nat, j: nat)
    requires j < i && Occurs(text, pat, i) && Occurs(text', pat, i) && !Occurs(text, pat, j)
    requires forall x :: 0 <= x < i ==> text[x] == text'[x]
    ensures !Occurs(text', pat, j)
  {
    var x :| 0 <= x < |pat| && text[j + x] != pat[x];
    if j + x >= i {
      assert text[i + (j + x - i)] == pat[j + x - i] == text'[i + (j + x - i)];
    }
    assert text'[j + x] != pat[x];
  }

  /** Appending to a document without a begin marker makes the new one the first. */
  lemma AppendedBeginIsFirst(text: string, text': string, m: Markers, c: string, post: string)
    requires Good(m) && FindBegin(text, m).None? && Laid(text', Lead(text), m, c, post)
    ensures forall j :: 0 <= j < |Lead(text)| ==> !Occurs(text', m.begin, j)
  {
    var lead := Lead(text);
    forall j | 0 <= j < |lead| ensures !Occurs(text', m.begin, j) {
      LeadHidesNothing(text, text', m.begin, j);
    }
  }

  /** Up to the end of the lead, a one-line pattern occurs only where it did before. */
  lemma LeadHidesNothing(text: string, text': string, pat: string, j: nat)
    requires OneLine(pat) && pat != "" && j < |Lead(text)| <= |text'|
    requires forall x :: 0 <= x < |Lead(text)| ==> text'[x] == Lead(text)[x]
    requires !Occurs(text, pat, j)
    ensures !Occurs(text', pat, j)
  {
    if j + |pat| <= |text| {
      var x :| 0 <= x < |pat| && text[j + x] != pat[x];
      assert text'[j + x] == Lead(text)[j + x] == text[j + x];
    } else {
      var feed := if j >= |text| then j else |text|;
      assert Lead(text)[feed] == '\n';
      NoFeedInside(text', pat, j, feed);
    }
  }

  // -- a stray begin marker -------------------------------------------------

  lemma StrayBegin(text: string, text': string, m: Markers, i: nat)
    requires Good(m) && FindBegin(text, m) == Some(i) && |Lead(text)| <= |text'|
    requires forall x :: 0 <= x < |Lead(text)| ==> text'[x] == Lead(text)[x]
    ensures FindBegin(text', m) == Some(i)
  {
    assert Occurs(text', m.begin, i) by {
      forall x | 0 <= x < |m.begin| ensures text'[i + x] == m.begin[x] {
        assert text'[i + x] == Lead(text)[i + x] == text[i + x];
      }
    }
    hide Occurs, Lead;
    forall j | 0 <= j < i ensures !Occurs(text', m.begin, j) { LeadHidesNothing(text, text', m.begin, j); }
    FindFirst(text', m.begin, 0, i);
  }

  /** With a stray begin marker at `i`, the first end marker after it is still the
      first one after the fresh begin marker. */
  lemma StrayEnd(text: string, text': string, m: Markers, c: string, post: string, i: nat)
    requires Good(m) && Unclosed(text, m) && FindBegin(text, m) == Some(i) && Laid(text', Lead(text), m, c, post)
    ensures FindBegin(text', m) == Some(i)
    ensures FindEnd(text', m, i) == Find(text', m.end, |Lead(text)| + |m.begin|)
  {
    var lead := Lead(text);
    var at := |lead| + |m.begin|;
    StrayBegin(text, text', m, i);
    FreshEnd(text', lead, m, c, post);
    assert text'[at] == '\n' && Occurs(text', m.begin, |lead|);
    hide Laid, Occurs, Find, Contains;
    var q := Find(text', m.end, at).value;
    forall j | i + |m.begin| <= j < q ensures !Occurs(text', m.end, j) {
      if j < |lead| {
        LeadHidesNothing(text, text', m.end, j);
      } else if j < at {
        NoEndInBegin(text', m, |lead|, j);
      }
    }
    FindFirst(text', m.end, i + |m.begin|, q);
  }

  lemma NoEndInBegin(text: string, m: Markers, k: nat, j: nat)
    requires Good(m) && Occurs(text, m.begin, k) && k <= j < k + |m.begin|
    requires k + |m.begin| < |text| && text[k + |m.begin|] == '\n'
    ensures !Occurs(text, m.end, j)
  {
    if j + |m.end| > k + |m.begin| {
      NoFeedInside(text, m.end, j, k + |m.begin|);
    } else {
      assert !Occurs(m.begin, m.end, j - k);
      var x :| 0 <= x < |m.end| && m.begin[j - k + x] != m.end[x];
      assert text[k + (j - k + x)] == m.begin[j - k + x];
    }
  }

  /** The block then read holds the fresh begin marker, or stops short of the content. */
  lemma StrayCapturesMore(text: string, text': string, m: Markers, content: string, post: string, i: nat)
    requires Good(m) && Unclosed(text, m) && FindBegin(text, m) == Some(i) && Laid(text', Lead(text), m, Strip(content), post)
    ensures HasBlock(text', m) && ExtractBlock(text', m) != Some(Strip(content))
  {
    var c, lead := Strip(content), Lead(text);
    StripIsIdempotent(content);
    hide Strip, Find, Body, OneLine, Laid, Occurs, Good, Contains;
    FoundFits(text, m.begin, 0);
    assert i + |m.begin| < |lead|;
    StrayEnd(text, text', m, c, post, i);
    FreshEnd(text', lead, m, c, post);
    FoundFits(text', m.end, i + |m.begin|);
    StrayBody(text', lead, m, c, post, i + |m.begin|, FindEnd(text', m, i).value);
  }

  lemma StrayBody(text: string, lead: string, m: Markers, c: string, post: string, from: nat, q: nat)
    requires Good(m) && Laid(text, lead, m, c, post) && (c != "" ==> Solid(c[|c| - 1]))
    requires from < |lead| && q <= |text| && from <= q && Find(text, m.end, from) == Some(q)
    requires q == |lead| + |m.begin| + 1 + if Contains(c, m.end) then Find(c, m.end, 0).value else |c| + 1
    ensures Body(text[from..q]) != c
  {
    hide Strip, Find, Body, OneLine, Laid, Occurs, Good;
    if Contains(c, m.end) {
      NoneBefore(text, m.end, from);
      NotEmpty(m);
      BodyHoldsNoEnd(text, m, c, from, q);
    } else {
      LaidBlock(text, lead, m, c, post);
      BodyHoldsBegin(text, m, c, from, |lead|, q);
    }
  }

  lemma NotEmpty(m: Markers)
    requires Good(m)
    ensures m.begin != "" && m.end != ""
  {
  }

  lemma LaidBlock(text: string, pre: string, m: Markers, c: string, post: string)
    requires Laid(text, pre, m, c, post)
    ensures Occurs(text, m.begin, |pre|) && |pre| + |m.begin| + 1 + |c| + 1 <= |text|
    ensures forall j :: 0 <= j < |c| ==> text[|pre| + |m.begin| + 1 + j] == c[j]
  {
  }

  lemma NoneBefore(s: string, pat: string, from: nat)
    requires Find(s, pat, from).Some?
    ensures forall j :: from <= j < Find(s, pat, from).value ==> !Occurs(s, pat, j)
  {
  }

  lemma BodyHoldsNoEnd(text: string, m: Markers, c: string, from: nat, q: nat)
    requires from <= q <= |text| && Contains(c, m.end) && m.end != ""
    requires forall j :: from <= j < q ==> !Occurs(text, m.end, j)
    ensures Body(text[from..q]) != c
  {
    FoundFits(c, m.end, 0);
    var p := Find(c, m.end, 0).value;
    assert Occurs(c, m.end, p);
    hide Body, Find, Occurs;
    if Body(text[from..q]) == c {
      var k := BodyOccurs(text, from, q, m.end, p);
    }
  }

  /** What occurs in the body occurs in the text it was read from. */
  lemma BodyOccurs(text: string, from: nat, q: nat, pat: string, p: nat) returns (k: nat)
    requires from <= q <= |text| && pat != "" && Occurs(Body(text[from..q]), pat, p)
    ensures from <= k < q && Occurs(text, pat, k)
  {
    var s := text[from..q];
    hide Body, Occurs;
    var l, r := BodyIsSlice(s);
    OccursFits(s[l..r], pat, p);
    SlicesHold(s, l, r, pat, p);
    SlicesHold(text, from, q, pat, l + p);
    k := from + (l + p);
  }

  lemma OccursFits(text: string, pat: string, k: nat)
    requires Occurs(text, pat, k)
    ensures k + |pat| <= |text|
  {
  }

  lemma BodyIsSlice(s: string) returns (l: nat, r: nat)
    ensures l <= r <= |s| && Body(s) == s[l..r]
  {
    var a := DropFirstFeed(s);
    var l', r' := StripIsSlice(DropLastFeed(a));
    hide Strip;
    l, r := |s| - |a| + l', |s| - |a| + r';
  }

  lemma SlicesHold(text: string, l: nat, r: nat, pat: string, p: nat)
    requires l <= r <= |text| && Occurs(text[l..r], pat, p)
    ensures Occurs(text, pat, l + p)
  {
    OccursInCopy(text, text[l..r], l, pat, p);
  }

  lemma BodyHoldsBegin(text: string, m: Markers, c: string, from: nat, k: nat, q: nat)
    requires Good(m) && from < k && Occurs(text, m.begin, k) && q == k + |m.begin| + 1 + |c| + 1 <= |text|
    requires c != "" ==> Solid(c[|c| - 1])
    requires forall j :: 0 <= j < |c| ==> text[k + |m.begin| + 1 + j] == c[j]
    ensures Body(text[from..q]) != c
  {
    var last := if c == "" then k + |m.begin| - 1 else k + |m.begin| + |c|;
    assert text[k + 0] == m.begin[0] && text[k + (|m.begin| - 1)] == m.begin[|m.begin| - 1];
    assert c != "" ==> text[k + |m.begin| + 1 + (|c| - 1)] == c[|c| - 1];
    hide Good, Occurs, Body;
    BodySpans(text[from..q], k - from, last - from);
  }

  /** The body reaches from one character to keep to any later one inside the feeds. */
  lemma BodySpans(s: string, a: nat, b: nat)
    requires 0 < a <= b < |s| - 1 && Solid(s[a]) && Solid(s[b])
    ensures |Body(s)| > b - a
  {
    var t := DropFirstFeed(s);
    var shift := |s| - |t|;
    StripSpans(DropLastFeed(t), a - shift, b - shift);
  }

  // -- the promises ---------------------------------------------------------

  /** The text around the block: `before + block + after` becomes `before + new block
      + after`, and an append only adds after what was there. */
  lemma UpdateFrames(text: string, m: Markers, content: string)
    ensures HasBlock(text, m) ==>
              var i := FindBegin(text, m).value;
              var stop := FindEnd(text, m, i).value + |m.end|;
              && i <= stop <= |text|
              && text == text[..i] + text[i..stop] + text[stop..]
              && Update(text, m, content) == text[..i] + Managed(m, content) + text[stop..]
    ensures !HasBlock(text, m) ==> text <= Update(text, m, content)
  {
    if HasBlock(text, m) { FoundFits(text, m.end, FindBegin(text, m).value + |m.begin|); }
    hide Find, Occurs, Managed;
  }

  /** The two ways a block is written without a stray begin marker in the way: what
      comes before it, and after it. */
  function Before(text: string, m: Markers): string {
    if HasBlock(text, m) then text[..FindBegin(text, m).value] else Lead(text)
  }

  function After(text: string, m: Markers): string {
    if HasBlock(text, m)
    then text[FindEnd(text, m, FindBegin(text, m).value).value + |m.end|..]
    else "\n"
  }

  lemma UpdateIsLaid(text: string, m: Markers, content: string)
    ensures Update(text, m, content) == Before(text, m) + Managed(m, content) + After(text, m)
    ensures Laid(Update(text, m, content), Before(text, m), m, Strip(content), After(text, m))
  {
    hide Occurs, Strip, Lead, Laid, Managed;
    ManagedIsLaid(Before(text, m), m, content, After(text, m));
  }

  lemma WrittenBeginIsFirst(text: string, m: Markers, content: string)
    requires Good(m) && !Unclosed(text, m)
    ensures forall j :: 0 <= j < |Before(text, m)| ==> !Occurs(Update(text, m, content), m.begin, j)
  {
    UpdateIsLaid(text, m, content);
    hide Occurs, Strip, Laid, Managed, Good, Update, Lead;
    var text' := Update(text, m, content);
    if HasBlock(text, m) {
      ReplaceKeepsFirstBegin(text, text', m, Strip(content), After(text, m), FindBegin(text, m).value);
    } else {
      AppendedBeginIsFirst(text, text', m, Strip(content), After(text, m));
    }
  }

  /** Round trip, exactly: reading after an update gives the stripped content if and
      only if the content holds no end marker and the document had no begin marker
      left unclosed. */
  lemma ReadAfterUpdateIff(text: string, m: Markers, content: string)
    requires Good(m)
    ensures ExtractBlock(Update(text, m, content), m) == Some(Strip(content))
            <==> !Contains(Strip(content), m.end) && !Unclosed(text, m)
  {
    UpdateIsLaid(text, m, content);
    hide Find, Occurs, Strip, Lead, Laid, Managed, ExtractBlock, Update, Good;
    var text' := Update(text, m, content);
    if Unclosed(text, m) {
      StrayCapturesMore(text, text', m, content, "\n", FindBegin(text, m).value);
    } else {
      WrittenBeginIsFirst(text, m, content);
      ReadFresh(text', Before(text, m), m, content, After(text, m));
    }
  }

  /** The last write wins, exactly: an earlier update leaves no trace, whether the
      block was replaced or appended, if and only if the same condition held then. */
  lemma LastUpdateWinsIff(text: string, m: Markers, first: string, second: string)
    requires Good(m)
    ensures Update(Update(text, m, first), m, second) == Update(text, m, second)
            <==> !Contains(Strip(first), m.end) && !Unclosed(text, m)
  {
    UpdateIsLaid(text, m, first);
    UpdateIsLaid(text, m, second);
    var text' := Update(text, m, first);
    if Unclosed(text, m) {
      StrayLeavesTrace(text, m, first, second);
    } else {
      hide Find, Occurs, Strip, Lead, Laid, Managed, ReplaceBlock, Good, Before, After;
      WrittenBeginIsFirst(text, m, first);
      ReplaceFresh(text', Before(text, m), m, Strip(first), After(text, m), Managed(m, second));
    }
  }

  /** Past a stray begin marker the second update writes over the stray one. */
  lemma StrayLeavesTrace(text: string, m: Markers, first: string, second: string)
    requires Good(m) && Unclosed(text, m)
    ensures Update(Update(text, m, first), m, second) != Update(text, m, second)
  {
    UpdateIsLaid(text, m, first);
    UpdateIsLaid(text, m, second);
    var i := FindBegin(text, m).value;
    var lead, text' := Lead(text), Update(text, m, first);
    var once, twice := Update(text, m, second), Update(text', m, second);
    FoundFits(text, m.begin, 0);
    assert i < |lead|;
    hide Find, Occurs, Strip, Lead, Laid, Managed, Good, Update, Contains;
    StrayEnd(text, text', m, Strip(first), "\n", i);
    FreshEnd(text', lead, m, Strip(first), "\n");
    UpdateIsLaid(text', m, second);
    FreshEnd(twice, Before(text', m), m, Strip(second), After(text', m));
    StrayEnd(text, once, m, Strip(second), "\n", i);
    FreshEnd(once, lead, m, Strip(second), "\n");
    FoundFits(text', m.begin, 0);
    assert |Before(text', m)| == i;
    assert FindEnd(twice, m, i) != FindEnd(once, m, i);
  }

  /** An update always leaves a block behind. */
  lemma UpdateHasBlock(text: string, m: Markers, content: string)
    requires Good(m)
    ensures HasBlock(Update(text, m, content), m)
  {
    UpdateIsLaid(text, m, content);
    hide Find, Occurs, Strip, Lead, Laid, Managed, ExtractBlock, Update, Good;
    if Unclosed(text, m) {
      StrayCapturesMore(text, Update(text, m, content), m, content, "\n", FindBegin(text, m).value);
    } else {
      WrittenBeginIsFirst(text, m, content);
      FreshMarkers(Update(text, m, content), Before(text, m), m, Strip(content), After(text, m));
    }
  }

  // -- markers of any shape -------------------------------------------------

  /** Neither marker is met before the place it is written at: the end marker not inside the
      content and its line feeds, the begin marker not where the text before it ends. */
  predicate Unambiguous(text: string, m: Markers, c: string) {
    && Find(Before(text, m) + m.begin, m.begin, 0) == Some(|Before(text, m)|)
    && EndUnambiguous(m, c)
  }

  predicate EndUnambiguous(m: Markers, c: string) { Find("\n" + c + "\n" + m.end, m.end, 0) == Some(|c| + 2) }

  /** Whatever the section name, the content then reads back. */
  lemma UnambiguousReadsBack(text: string, m: Markers, content: string)
    requires Unambiguous(text, m, Strip(content))
    ensures ExtractBlock(Update(text, m, content), m) == Some(Strip(content))
  {
    UpdateIsLaid(text, m, content);
    hide Strip, Laid, Update, Before, After, Find;
    LaidReadsBack(Update(text, m, content), Before(text, m), m, content, After(text, m));
  }

  lemma LaidReadsBack(text: string, pre: string, m: Markers, content: string, post: string)
    requires Laid(text, pre, m, Strip(content), post)
    requires Find(pre + m.begin, m.begin, 0) == Some(|pre|)
    requires EndUnambiguous(m, Strip(content))
    ensures ExtractBlock(text, m) == Some(Strip(content))
  {
    hide *;
    var c := Strip(content);
    var at := |pre| + |m.begin|;
    var tail := "\n" + c + "\n" + m.end;
    assert Find(tail, m.end, 0) == Some(|c| + 2) by { EndIsFound(m, c); }
    LaidSlices(text, pre, m, c, post);
    LaidEnds(text, pre, m, c, post);
    FirstInSlice(text, 0, at, m.begin, |pre|, pre + m.begin);
    FirstInSlice(text, at, at + |c| + 2 + |m.end|, m.end, |c| + 2, tail);
    BetweenMarkers(text, m, content, |pre|);
  }

  lemma EndIsFound(m: Markers, c: string)
    requires EndUnambiguous(m, c)
    ensures Find("\n" + c + "\n" + m.end, m.end, 0) == Some(|c| + 2)
  {
  }

  lemma BetweenMarkers(text: string, m: Markers, content: string, i: nat)
    requires var c, at := Strip(content), i + |m.begin|;
             && Find(text, m.begin, 0) == Some(i) && Find(text, m.end, at) == Some(at + |c| + 2)
             && at + |c| + 2 <= |text| && text[at..at + |c| + 2] == "\n" + c + "\n"
    ensures ExtractBlock(text, m) == Some(Strip(content))
  {
    hide Strip, Find, Body;
    WholeBody(text[i + |m.begin|..i + |m.begin| + |Strip(content)| + 2], content);
  }

  lemma LaidEnds(text: string, pre: string, m: Markers, c: string, post: string)
    requires Laid(text, pre, m, c, post)
    ensures var at := |pre| + |m.begin|;
            && at + |c| + 2 + |m.end| <= |text|
            && text[0..at] == pre + m.begin && text[at..at + |c| + 2 + |m.end|] == "\n" + c + "\n" + m.end
  {
    LaidSlices(text, pre, m, c, post);
    var at := |pre| + |m.begin|;
    var q := at + |c| + 2;
    assert text[|pre|..at] == m.begin && text[q..q + |m.end|] == m.end;
    assert text[0..at] == text[..|pre|] + text[|pre|..at];
    assert text[at..q + |m.end|] == text[at..q] + text[q..q + |m.end|];
  }

  /** The first occurrence in a slice that ends with it is the first from the slice on. */
  lemma FirstInSlice(text: string, l: nat, r: nat, pat: string, k: nat, slice: string)
    requires l <= r <= |text| && text[l..r] == slice && Find(slice, pat, 0) == Some(k) && k + |pat| == r - l
    ensures Find(text, pat, l) == Some(l + k)
  {
    NoneBefore(slice, pat, 0);
    assert Occurs(slice, pat, k);
    hide Find, Occurs;
    OccursInCopy(text, slice, l, pat, k);
    forall j | l <= j < l + k ensures !Occurs(text, pat, j) {
      OccursInCopy(text, slice, l, pat, j - l);
    }
    FindFirst(text, pat, l, l + k);
  }

  /** An end marker right behind the first line feed of a block leaves nothing to read. */
  lemma EarlyEndReadsNothing(text: string, m: Markers, i: nat, c: string)
    requires FindBegin(text, m) == Some(i) && Occurs(text, m.end, i + |m.begin| + 1) && |c| > 1
    ensures HasBlock(text, m) && ExtractBlock(text, m) != Some(c)
  {
    var at := i + |m.begin|;
    assert Find(text, m.end, at).Some? && Find(text, m.end, at).value <= at + 1;
    FoundFits(text, m.end, at);
    var l, r := BodyIsSlice(text[at..Find(text, m.end, at).value]);
    hide Find, Occurs, Body;
  }
}
