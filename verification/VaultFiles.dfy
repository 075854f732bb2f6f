/** The belief documents as files (`src/paa/memory/world_model.py`). Files are read in text
    mode, which turns every carriage return, alone or before a line feed, into a line feed;
    they are written as they are. */
module VaultFiles {
  import opened Ledger
  import opened Compaction
  import opened WorldModel

  // -- newline translation --------------------------------------------------

  /** `Path.read_text` */
  function ReadText(raw: string): string {
    if raw == "" then ""
    else if raw[0] != '\r' then [raw[0]] + ReadText(raw[1..])
    else "\n" + ReadText(raw[if |raw| > 1 && raw[1] == '\n' then 2 else 1..])
  }

  /** The text is the file at the positions `at`, with a line feed for every carriage return. */
  predicate Copies(raw: string, text: string, at: seq<nat>) {
    && |at| == |text| && (forall i, j :: 0 <= i < j < |at| ==> at[i] < at[j])
    && forall k :: 0 <= k < |at| ==> at[k] < |raw| && text[k] == if raw[at[k]] == '\r' then '\n' else raw[at[k]]
  }

  /** The line feed of a carriage return and line feed. */
  predicate Paired(raw: string, i: nat)
    requires i < |raw|
  {
    i > 0 && raw[i] == '\n' && raw[i - 1] == '\r'
  }

  predicate SkipsPaired(raw: string, at: seq<nat>) {
    forall i: nat :: i < |raw| ==> (i in at <==> !Paired(raw, i))
  }

  /** Reading keeps every character in order, carriage returns as line feeds, and skips only
      a line feed right after a carriage return: the lines of a file stay its lines. */
  lemma {:induction false} ReadTranslates(raw: string) returns (at: seq<nat>)
    ensures Copies(raw, ReadText(raw), at) && SkipsPaired(raw, at)
    decreases |raw|
  {
    if raw == "" {
      at := [];
    } else {
      var skip := if raw[0] == '\r' && |raw| > 1 && raw[1] == '\n' then 2 else 1;
      var tail := ReadTranslates(raw[skip..]);
      at := Shifted(tail, skip);
      ReadUnfolds(raw, skip);
      ShiftedCopies(raw, ReadText(raw[skip..]), tail, skip);
      ShiftedSkips(raw, tail, skip);
    }
  }

  function Shifted(at: seq<nat>, n: nat): (r: seq<nat>)
    ensures |r| == |at| + 1 && r[0] == 0 && forall k :: 0 <= k < |at| ==> r[k + 1] == at[k] + n
  {
    [0] + seq(|at|, k requires 0 <= k < |at| => at[k] + n)
  }

  lemma ReadUnfolds(raw: string, skip: nat)
    requires raw != "" && skip == if raw[0] == '\r' && |raw| > 1 && raw[1] == '\n' then 2 else 1
    ensures ReadText(raw) == [if raw[0] == '\r' then '\n' else raw[0]] + ReadText(raw[skip..])
  {
  }

  lemma ShiftedCopies(raw: string, text: string, tail: seq<nat>, skip: nat)
    requires 0 < skip <= |raw| && Copies(raw[skip..], text, tail)
    ensures Copies(raw, [if raw[0] == '\r' then '\n' else raw[0]] + text, Shifted(tail, skip))
  {
    var at, rest := Shifted(tail, skip), raw[skip..];
    hide Shifted;
    forall k | 0 < k < |at| ensures at[k] == tail[k - 1] + skip && at[k] < |raw| && raw[at[k]] == rest[tail[k - 1]] {}
  }

  lemma ShiftedSkips(raw: string, tail: seq<nat>, skip: nat)
    requires raw != "" && skip == (if raw[0] == '\r' && |raw| > 1 && raw[1] == '\n' then 2 else 1) && SkipsPaired(raw[skip..], tail)
    ensures SkipsPaired(raw, Shifted(tail, skip))
  {
    var rest, at := raw[skip..], Shifted(tail, skip);
    forall i: nat | i < |raw| ensures i in at <==> !Paired(raw, i) {
      InShifted(tail, skip, i);
      if i >= skip { assert Paired(rest, i - skip) <==> Paired(raw, i); }
    }
  }

  lemma InShifted(tail: seq<nat>, skip: nat, i: nat)
    requires skip > 0
    ensures i in Shifted(tail, skip) <==> i == 0 || (i >= skip && i - skip in tail)
  {
    var at := Shifted(tail, skip);
    assert at[0] == 0;
    if i >= skip && i - skip in tail {
      var k :| 0 <= k < |tail| && tail[k] == i - skip;
      assert at[k + 1] == i;
    }
    if i in at && i != 0 {
      var k :| 0 <= k < |at| && at[k] == i;
      assert tail[k - 1] == i - skip;
    }
  }

  predicate NoReturn(s: string) { forall i :: 0 <= i < |s| ==> s[i] != '\r' }

  lemma {:induction false} ReadFacts(raw: string)
    ensures NoReturn(ReadText(raw)) && |ReadText(raw)| <= |raw|
    ensures ReadText(raw) == raw <==> NoReturn(raw)
    ensures |ReadText(raw)| == 0 <==> |raw| == 0
  {
    if raw != "" {
      if raw[0] != '\r' {
        ReadFacts(raw[1..]);
        assert raw == [raw[0]] + raw[1..];
        assert NoReturn(raw) <==> NoReturn(raw[1..]);
      } else {
        ReadFacts(raw[if |raw| > 1 && raw[1] == '\n' then 2 else 1..]);
      }
    }
  }

  /** A text with a carriage return is no prefix of anything that starts with its
      translation. */
  lemma {:induction false} PrefixHasNoReturn(raw: string, z: string)
    requires raw <= ReadText(raw) + z
    ensures NoReturn(raw)
  {
    if raw != "" {
      var all := ReadText(raw) + z;
      assert raw[0] == all[0];
      assert raw[1..] == all[1..|raw|];
      assert all[1..] == ReadText(raw[1..]) + z;
      PrefixHasNoReturn(raw[1..], z);
    }
  }

  lemma {:induction false} ReadConcat(a: string, b: string)
    requires NoReturn(a)
    ensures ReadText(a + b) == a + ReadText(b)
  {
    if a == "" {
      assert a + b == b;
    } else {
      ReadConcat(a[1..], b);
      assert (a + b)[1..] == a[1..] + b;
      assert a == [a[0]] + a[1..];
    }
  }

  /** The first character of a translation comes from one character, or from a carriage
      return with its line feed. */
  lemma FirstUnit(raw: string, n: nat)
    requires raw != "" && n <= |raw| && n == (if raw[0] == '\r' && |raw| > 1 && raw[1] == '\n' then 2 else 1)
    ensures ReadText(raw) == [if raw[0] == '\r' then '\n' else raw[0]] + ReadText(raw[n..])
  {
  }

  /** Any cut of the translation is the translation of a cut. */
  lemma {:induction false} CutOf(raw: string, i: nat) returns (r: nat)
    requires i <= |ReadText(raw)|
    ensures r <= |raw| && ReadText(raw[..r]) == ReadText(raw)[..i] && ReadText(raw[r..]) == ReadText(raw)[i..]
  {
    hide ReadText;
    if i == 0 {
      r := 0;
      NothingToTrim();
      assert raw[..0] == "" && raw[0..] == raw;
    } else {
      ReadFacts(raw);
      var n := if raw[0] == '\r' && |raw| > 1 && raw[1] == '\n' then 2 else 1;
      FirstUnit(raw, n);
      var k := CutOf(raw[n..], i - 1);
      r := n + k;
      FirstUnitOfPrefix(raw, n, k);
      assert raw[r..] == raw[n..][k..];
    }
  }

  lemma FirstUnitOfPrefix(raw: string, n: nat, k: nat)
    requires raw != "" && n + k <= |raw| && n == (if raw[0] == '\r' && |raw| > 1 && raw[1] == '\n' then 2 else 1)
    ensures ReadText(raw[..n + k]) == [if raw[0] == '\r' then '\n' else raw[0]] + ReadText(raw[n..][..k])
  {
    FirstUnit(raw[..n + k], n);
    assert raw[..n + k][n..] == raw[n..][..k];
  }

  // -- text outside the block -----------------------------------------------

  /** The file around the block found in its text. */
  lemma FileParts(raw: string, m: Markers) returns (a: string, b: string, z: string)
    requires HasBlock(ReadText(raw), m)
    ensures var text := ReadText(raw);
            var i := FindBegin(text, m).value;
            var stop := FindEnd(text, m, i).value + |m.end|;
            && i <= stop <= |text| && raw == a + b + z
            && ReadText(a) == text[..i] && ReadText(b) == text[i..stop] && ReadText(z) == text[stop..]
  {
    var text := ReadText(raw);
    UpdateFrames(text, m, "");
    hide Find, Update, ReadText;
    var i := FindBegin(text, m).value;
    var stop := FindEnd(text, m, i).value + |m.end|;
    var r := CutOf(raw, i);
    var q := CutOf(raw[r..], stop - i);
    a, b, z := raw[..r], raw[r..][..q], raw[r..][q..];
    assert text[i..][..stop - i] == text[i..stop] && text[i..][stop - i..] == text[stop..];
  }

  /** An update preserves what stands around the block, exactly when that holds no
      carriage return. */
  lemma ReplacePreservesIff(raw: string, m: Markers, content: string, a: string, z: string)
    requires HasBlock(ReadText(raw), m)
    requires var text := ReadText(raw);
             var i := FindBegin(text, m).value;
             var stop := FindEnd(text, m, i).value + |m.end|;
             i <= stop <= |text| && ReadText(a) == text[..i] && ReadText(z) == text[stop..]
    ensures Update(ReadText(raw), m, content) == a + Managed(m, content) + z <==> NoReturn(a) && NoReturn(z)
  {
    UpdateFrames(ReadText(raw), m, content);
    hide Find, Update, Managed, ReadText;
    ReadFacts(a);
    ReadFacts(z);
    var managed := Managed(m, content);
    var got, kept := ReadText(a) + managed + ReadText(z), a + managed + z;
    if got == kept {
      assert |ReadText(a)| == |a| && |ReadText(z)| == |z|;
      assert got[..|a|] == ReadText(a) && kept[..|a|] == a;
      assert got[|a| + |managed|..] == ReadText(z) && kept[|a| + |managed|..] == z;
    }
  }

  /** Appending a block preserves a file, exactly when it holds no carriage return. */
  lemma AppendPreservesIff(raw: string, m: Markers, content: string)
    requires !HasBlock(ReadText(raw), m)
    ensures raw <= Update(ReadText(raw), m, content) <==> NoReturn(raw)
  {
    ReadFacts(raw);
    var text := ReadText(raw);
    UpdateFrames(text, m, content);
    var updated := Update(text, m, content);
    hide Update, ReadText;
    assert updated == text + updated[|text|..];
    if raw <= updated { PrefixHasNoReturn(raw, updated[|text|..]); }
  }

  // -- reading back ---------------------------------------------------------

  /** What `read_managed` makes of a file. */
  function ManagedText(raw: string, m: Markers): string {
    var block := ExtractBlock(ReadText(raw), m);
    if block.Some? then block.value else ""
  }

  lemma ConcatNoReturn(a: string, b: string)
    ensures NoReturn(a + b) <==> NoReturn(a) && NoReturn(b)
  {
    if !NoReturn(a) {
      var i :| 0 <= i < |a| && a[i] == '\r';
      assert (a + b)[i] == '\r';
    }
    if !NoReturn(b) {
      var i :| 0 <= i < |b| && b[i] == '\r';
      assert (a + b)[|a| + i] == '\r';
    }
  }

  lemma MarkersNoReturn(section: string)
    ensures var m := MarkersOf(section);
            (NoReturn(m.begin) <==> NoReturn(section)) && (NoReturn(m.end) <==> NoReturn(section))
  {
    var m := MarkersOf(section);
    assert NoReturn("<!-- paa:managed:BEGIN ") && NoReturn("<!-- paa:managed:END ") && NoReturn(" -->");
    hide NoReturn;
    ConcatNoReturn("<!-- paa:managed:BEGIN ", section);
    ConcatNoReturn("<!-- paa:managed:BEGIN " + section, " -->");
    ConcatNoReturn("<!-- paa:managed:END ", section);
    ConcatNoReturn("<!-- paa:managed:END " + section, " -->");
  }

  lemma ManagedNoReturn(m: Markers, content: string)
    ensures NoReturn(Managed(m, content)) <==> NoReturn(m.begin) && NoReturn(Strip(content)) && NoReturn(m.end)
  {
    assert NoReturn("\n");
    hide NoReturn, Strip;
    var c := Strip(content);
    ConcatNoReturn(m.begin, "\n");
    ConcatNoReturn(m.begin + "\n", c);
    ConcatNoReturn(m.begin + "\n" + c, "\n");
    ConcatNoReturn(m.begin + "\n" + c + "\n", m.end);
  }

  /** What stands around a block written into translated text holds no carriage return. */
  lemma SurroundingsNoReturn(text: string, m: Markers)
    requires NoReturn(text)
    ensures NoReturn(Before(text, m)) && NoReturn(After(text, m))
  {
    UpdateFrames(text, m, "");
    hide Find;
  }

  /** A text without carriage returns holds no marker that has one. */
  lemma NoMarkerFound(text: string, pat: string)
    requires NoReturn(text) && !NoReturn(pat)
    ensures Find(text, pat, 0).None?
  {
    var i :| 0 <= i < |pat| && pat[i] == '\r';
    if Find(text, pat, 0).Some? {
      ReturnInside(text, pat, Find(text, pat, 0).value, i);
    }
  }

  lemma ReturnInside(text: string, pat: string, k: nat, i: nat)
    requires Occurs(text, pat, k) && i < |pat| && pat[i] == '\r'
    ensures !NoReturn(text)
  {
    assert text[k + i] == pat[i];
  }

  /** Nothing read back holds a carriage return. */
  lemma ReadBackNoReturn(raw: string, m: Markers)
    ensures NoReturn(ManagedText(raw, m))
  {
    hide Body, Find, ReadText, NoReturn;
    ReadFacts(raw);
    var text := ReadText(raw);
    NothingHasNoReturn();
    if HasBlock(text, m) {
      var i := FindBegin(text, m).value;
      FoundFits(text, m.end, i + |m.begin|);
      var q := FindEnd(text, m, i).value;
      var l, r := BodyIsSlice(text[i + |m.begin|..q]);
      SliceNoReturn(text, i + |m.begin|, q);
      SliceNoReturn(text[i + |m.begin|..q], l, r);
    }
  }

  lemma NothingHasNoReturn()
    ensures NoReturn("")
  {
  }

  lemma SliceNoReturn(s: string, l: nat, r: nat)
    requires l <= r <= |s| && NoReturn(s)
    ensures NoReturn(s[l..r])
  {
  }

  /** When an updated file reads back as the stripped content. */
  predicate ReadsBack(text: string, section: string, content: string) {
    var m, c := MarkersOf(section), Strip(content);
    if NoReturn(section) then !Contains(c, m.end) && !Unclosed(text, m) && NoReturn(c) else c == ""
  }

  /** Round trip through the file, exactly: the stripped content comes back if and only if
      the section name and the content hold no carriage return, the content no end marker,
      and the document no begin marker left unclosed. (Under a section name with a carriage
      return nothing is ever found, so only empty content comes back.) */
  lemma FileRoundTripIff(raw: string, section: string, content: string)
    requires OneLine(section)
    ensures var m := MarkersOf(section);
            ManagedText(Update(ReadText(raw), m, content), m) == Strip(content) <==> ReadsBack(ReadText(raw), section, content)
  {
    var m, text := MarkersOf(section), ReadText(raw);
    var updated := Update(text, m, content);
    MarkersAreGood(section);
    MarkersNoReturn(section);
    ReadFacts(raw);
    ReadFacts(updated);
    ReadBackNoReturn(updated, m);
    hide ReadText, NoReturn, Update, MarkersOf, Strip, Good, OneLine, Occurs, Find;
    if !NoReturn(section) {
      NoMarkerFound(ReadText(updated), m.begin);
    } else if NoReturn(Strip(content)) {
      UpdatedNoReturn(text, m, content);
      UpdateHasBlock(text, m, content);
      ReadAfterUpdateIff(text, m, content);
    }
  }

  /** A condition for section names of any shape, line feeds included. */
  lemma UnambiguousFileReadsBack(raw: string, section: string, content: string)
    requires NoReturn(section) && NoReturn(Strip(content)) && Unambiguous(ReadText(raw), MarkersOf(section), Strip(content))
    ensures var m := MarkersOf(section); ManagedText(Update(ReadText(raw), m, content), m) == Strip(content)
  {
    var m, text := MarkersOf(section), ReadText(raw);
    MarkersNoReturn(section);
    ReadFacts(raw);
    ReadFacts(Update(text, m, content));
    hide ReadText, NoReturn, Update, MarkersOf, Strip, Unambiguous;
    UpdatedNoReturn(text, m, content);
    UnambiguousReadsBack(text, m, content);
  }

  lemma UpdatedNoReturn(text: string, m: Markers, content: string)
    requires NoReturn(text) && NoReturn(m.begin) && NoReturn(m.end) && NoReturn(Strip(content))
    ensures NoReturn(Update(text, m, content))
  {
    UpdateIsLaid(text, m, content);
    SurroundingsNoReturn(text, m);
    ManagedNoReturn(m, content);
    hide NoReturn, Update, Managed, Strip, Before, After, Laid;
    ConcatNoReturn(Before(text, m), Managed(m, content));
    ConcatNoReturn(Before(text, m) + Managed(m, content), After(text, m));
  }

  // -- a document that did not exist ----------------------------------------

  /** The four belief files. */
  datatype BeliefDocument = CurrentFocus | StrategicRisks | ActiveConstraints | OperatingThemes
  {
    function Title(): string {
      match this
      case CurrentFocus => "Current Focus"
      case StrategicRisks => "Strategic Risks"
      case ActiveConstraints => "Active Constraints"
      case OperatingThemes => "Operating Themes"
    }
  }

  /** `_new_document` above its block. */
  function Header(doc: BeliefDocument): string {
    "# " + doc.Title() + SHARED + OUTSIDE
  }

  const SHARED := "\n\n_This file is shared between " + "you and the runtime._\n"
  const OUTSIDE := "_Text outside the managed block " + "below is yours and is never " + "overwritten._\n\n"

  /** Nothing in a header looks like a marker or a carriage return. */
  predicate Inert(s: string) { forall i :: 0 <= i < |s| ==> s[i] != '<' && s[i] != '\r' }

  lemma ConcatInert(a: string, b: string)
    requires Inert(a) && Inert(b)
    ensures Inert(a + b)
  {
  }

  lemma HeaderIsInert(doc: BeliefDocument)
    ensures Inert(Header(doc))
  {
    TextsAreInert();
    TitleIsInert(doc);
    assert Inert("# ");
    hide Inert;
    ConcatInert("# ", doc.Title());
    ConcatInert("# " + doc.Title(), SHARED);
    ConcatInert("# " + doc.Title() + SHARED, OUTSIDE);
  }

  lemma TitleIsInert(doc: BeliefDocument)
    ensures Inert(doc.Title())
  {
    match doc
    case CurrentFocus => assert Inert("Current Focus");
    case StrategicRisks => assert Inert("Strategic Risks");
    case ActiveConstraints => assert Inert("Active Constraints");
    case OperatingThemes => assert Inert("Operating Themes");
  }

  lemma TextsAreInert()
    ensures Inert(SHARED) && Inert(OUTSIDE)
  {
    var a, b := "\n\n_This file is shared between ", "you and the runtime._\n";
    assert Inert(a) && Inert(b);
    var c, d, e := "_Text outside the managed block ", "below is yours and is never ", "overwritten._\n\n";
    assert Inert(c) && Inert(d) && Inert(e);
    hide Inert;
    ConcatInert(a, b);
    ConcatInert(c, d);
    ConcatInert(c + d, e);
  }

  /** A new document, and when it reads back. */
  function NewDocument(doc: BeliefDocument, m: Markers, content: string): string {
    Header(doc) + Managed(m, content) + "\n"
  }

  lemma NewRoundTripIff(doc: BeliefDocument, section: string, content: string)
    requires OneLine(section)
    ensures var m, c := MarkersOf(section), Strip(content);
            ManagedText(NewDocument(doc, m, content), m) == c
            <==> if NoReturn(section) then !Contains(c, m.end) && NoReturn(c) else c == ""
  {
    var m := MarkersOf(section);
    var raw := NewDocument(doc, m, content);
    MarkersAreGood(section);
    MarkersNoReturn(section);
    ReadFacts(raw);
    ReadBackNoReturn(raw, m);
    HeaderIsInert(doc);
    assert Inert(Header(doc)) ==> NoReturn(Header(doc));
    assert NoReturn("\n") && m.begin[0] == '<';
    ManagedIsLaid(Header(doc), m, content, "\n");
    hide ReadText, NoReturn, MarkersOf, Strip, OneLine, Header, Managed;
    if !NoReturn(section) {
      NoMarkerFound(ReadText(raw), m.begin);
    } else if NoReturn(Strip(content)) {
      ManagedNoReturn(m, content);
      ConcatNoReturn(Header(doc), Managed(m, content));
      ConcatNoReturn(Header(doc) + Managed(m, content), "\n");
      InertHoldsNoMarker(raw, Header(doc), m, Strip(content), "\n");
      hide Laid, Occurs, Inert, Good, Find;
      FreshMarkers(raw, Header(doc), m, Strip(content), "\n");
      ReadFresh(raw, Header(doc), m, content, "\n");
    }
  }

  /** A new document under a section name of any shape. */
  lemma UnambiguousNewReadsBack(doc: BeliefDocument, section: string, content: string)
    requires NoReturn(section) && NoReturn(Strip(content)) && EndUnambiguous(MarkersOf(section), Strip(content))
    ensures var m := MarkersOf(section); ManagedText(NewDocument(doc, m, content), m) == Strip(content)
  {
    var m := MarkersOf(section);
    var raw := NewDocument(doc, m, content);
    MarkersNoReturn(section);
    HeaderIsInert(doc);
    assert Inert(Header(doc)) ==> NoReturn(Header(doc));
    assert NoReturn("\n") && m.begin != "" && m.begin[0] == '<';
    ManagedIsLaid(Header(doc), m, content, "\n");
    ManagedNoReturn(m, content);
    ReadFacts(raw);
    hide ReadText, NoReturn, MarkersOf, Strip, Header, Managed, EndUnambiguous, Laid, Inert;
    ConcatNoReturn(Header(doc), Managed(m, content));
    ConcatNoReturn(Header(doc) + Managed(m, content), "\n");
    FirstAfterInert(Header(doc), m.begin);
    LaidReadsBack(raw, Header(doc), m, content, "\n");
  }

  lemma FirstAfterInert(pre: string, pat: string)
    requires Inert(pre) && pat != "" && pat[0] == '<'
    ensures Find(pre + pat, pat, 0) == Some(|pre|)
  {
    var text := pre + pat;
    forall j | 0 <= j < |pre| ensures !Occurs(text, pat, j) { assert text[j + 0] != pat[0]; }
    assert Occurs(text, pat, |pre|);
    FindFirst(text, pat, 0, |pre|);
  }

  lemma InertHoldsNoMarker(text: string, pre: string, m: Markers, c: string, post: string)
    requires Inert(pre) && Laid(text, pre, m, c, post) && m.begin != "" && m.begin[0] == '<'
    ensures forall j :: 0 <= j < |pre| ==> !Occurs(text, m.begin, j)
  {
    forall j | 0 <= j < |pre| ensures !Occurs(text, m.begin, j) {
      assert text[j + 0] != m.begin[0];
    }
  }

  // -- the last write wins --------------------------------------------------

  predicate Starts(s: string, pat: string) { |pat| <= |s| && s[..|pat|] == pat }

  lemma StartsFirst(s: string, pat: string)
    requires s != "" && pat != "" && s[0] != pat[0]
    ensures !Starts(s, pat)
  {
    assert |pat| <= |s| ==> s[..|pat|][0] != pat[0];
  }

  /** A pattern without line ends starts a translation exactly when it starts the text. */
  lemma {:induction false} StartsTranslated(s: string, pat: string)
    requires NoReturn(pat) && OneLine(pat)
    ensures Starts(ReadText(s), pat) <==> Starts(s, pat)
  {
    if pat != "" && s != "" {
      if s[0] == '\r' {
        StartsFirst(s, pat);
        StartsFirst(ReadText(s), pat);
      } else {
        StartsTranslated(s[1..], pat[1..]);
        assert pat == [pat[0]] + pat[1..];
        assert Starts(s, pat) <==> s[0] == pat[0] && Starts(s[1..], pat[1..]);
        assert Starts(ReadText(s), pat) <==> ReadText(s)[0] == pat[0] && Starts(ReadText(s)[1..], pat[1..]);
      }
    }
  }

  predicate Holds(s: string, pat: string) {
    Starts(s, pat) || (s != "" && Holds(s[1..], pat))
  }

  lemma {:induction false} HoldsIsContains(s: string, pat: string)
    ensures Holds(s, pat) <==> exists k: nat :: Occurs(s, pat, k)
  {
    assert Occurs(s, pat, 0) <==> Starts(s, pat);
    if s != "" {
      HoldsIsContains(s[1..], pat);
      forall k: nat ensures Occurs(s[1..], pat, k) <==> Occurs(s, pat, k + 1) {
        OccursInTail(s, pat, k);
      }
      hide Occurs, Starts, Holds;
      if k: nat :| Occurs(s, pat, k) {
        if k > 0 { assert Occurs(s[1..], pat, k - 1); }
      }
    }
  }

  lemma OccursInTail(s: string, pat: string, k: nat)
    requires s != ""
    ensures Occurs(s[1..], pat, k) <==> Occurs(s, pat, k + 1)
  {
    if k + 1 + |pat| <= |s| {
      forall x | 0 <= x < |pat| ensures s[1..][k + x] == pat[x] <==> s[k + 1 + x] == pat[x] {
        assert s[1..][k + x] == s[k + 1 + x];
      }
    }
  }

  /** Translation neither makes nor breaks a pattern without line ends. */
  lemma {:induction false} HoldsTranslated(s: string, pat: string)
    requires NoReturn(pat) && OneLine(pat) && pat != ""
    ensures Holds(ReadText(s), pat) <==> Holds(s, pat)
  {
    StartsTranslated(s, pat);
    if s != "" {
      var n := if s[0] == '\r' && |s| > 1 && s[1] == '\n' then 2 else 1;
      FirstUnit(s, n);
      HoldsTranslated(s[n..], pat);
      assert ReadText(s)[1..] == ReadText(s[n..]);
      if n == 2 {
        StartsFirst(s[1..], pat);
        assert s[1..][1..] == s[2..];
      }
    }
  }

  lemma ContainsTranslated(s: string, pat: string)
    requires NoReturn(pat) && OneLine(pat) && pat != ""
    ensures Contains(ReadText(s), pat) <==> Contains(s, pat)
  {
    HoldsIsContains(s, pat);
    HoldsIsContains(ReadText(s), pat);
    HoldsTranslated(s, pat);
    hide Occurs, ReadText, Holds;
  }

  lemma {:induction false} ReadConcatSolid(a: string, b: string)
    requires a != "" ==> a[|a| - 1] != '\r'
    ensures ReadText(a + b) == ReadText(a) + ReadText(b)
    decreases |a|
  {
    hide ReadText;
    if a == "" {
      NothingToTrim();
      assert a + b == b;
    } else {
      var n := if a[0] == '\r' && |a| > 1 && a[1] == '\n' then 2 else 1;
      var first := [if a[0] == '\r' then '\n' else a[0]];
      FirstUnit(a, n);
      FirstUnitOfConcat(a, b, n);
      ReadConcatSolid(a[n..], b);
      assert first + (ReadText(a[n..]) + ReadText(b)) == first + ReadText(a[n..]) + ReadText(b);
    }
  }

  lemma FirstUnitOfConcat(a: string, b: string, n: nat)
    requires a != "" && a[|a| - 1] != '\r' && n == (if a[0] == '\r' && |a| > 1 && a[1] == '\n' then 2 else 1)
    ensures ReadText(a + b) == [if a[0] == '\r' then '\n' else a[0]] + ReadText(a[n..] + b)
  {
    FirstUnit(a + b, n);
    assert (a + b)[n..] == a[n..] + b;
  }

  lemma {:induction false} ReadEnds(s: string)
    requires s != "" && Solid(s[|s| - 1])
    ensures ReadText(s) != "" && ReadText(s)[|ReadText(s)| - 1] == s[|s| - 1]
    ensures Solid(s[0]) ==> ReadText(s)[0] == s[0]
    decreases |s|
  {
    var n := if s[0] == '\r' && |s| > 1 && s[1] == '\n' then 2 else 1;
    FirstUnit(s, n);
    if n < |s| { ReadEnds(s[n..]); }
  }

  lemma TranslatedIsStripped(content: string)
    ensures var t := ReadText(Strip(content)); Strip(t) == t
  {
    StripIsIdempotent(content);
    var c := Strip(content);
    hide Strip;
    if c != "" {
      ReadEnds(c);
      SolidEndsStay(ReadText(c));
    } else {
      NothingToTrim();
    }
  }

  lemma SolidEndsStay(s: string)
    requires s != "" && Solid(s[0]) && Solid(s[|s| - 1])
    ensures Strip(s) == s
  {
  }

  lemma NothingToTrim()
    ensures Strip("") == "" && ReadText("") == ""
  {
  }

  /** Reading an updated file gives the update with the translated content. */
  lemma ReadOfUpdate(text: string, m: Markers, content: string)
    requires NoReturn(text) && NoReturn(m.begin) && NoReturn(m.end)
    ensures ReadText(Update(text, m, content)) == Update(text, m, ReadText(Strip(content)))
  {
    var c := Strip(content);
    UpdateIsLaid(text, m, content);
    UpdateIsLaid(text, m, ReadText(c));
    StripIsIdempotent(content);
    TranslatedIsStripped(content);
    SurroundingsNoReturn(text, m);
    hide Laid, Update, Before, After, Strip, ReadText, NoReturn;
    BlockTranslates(Before(text, m), m, c, After(text, m));
  }

  lemma BlockTranslates(pre: string, m: Markers, c: string, post: string)
    requires NoReturn(pre) && NoReturn(post) && NoReturn(m.begin) && NoReturn(m.end) && (c != "" ==> Solid(c[|c| - 1]))
    ensures ReadText(pre + (m.begin + "\n" + c + "\n" + m.end) + post)
            == pre + (m.begin + "\n" + ReadText(c) + "\n" + m.end) + post
  {
    var head, tail := pre + m.begin + "\n", "\n" + m.end + post;
    assert NoReturn("\n");
    hide ReadText, NoReturn;
    ConcatNoReturn(pre, m.begin);
    ConcatNoReturn(pre + m.begin, "\n");
    ConcatNoReturn("\n", m.end);
    ConcatNoReturn("\n" + m.end, post);
    ReadFacts(tail);
    ReadConcat(head, c + tail);
    ReadConcatSolid(c, tail);
    Regroup(pre, m.begin, c, m.end, post);
    Regroup(pre, m.begin, ReadText(c), m.end, post);
  }

  lemma Regroup(pre: string, begin: string, c: string, end: string, post: string)
    ensures pre + (begin + "\n" + c + "\n" + end) + post == (pre + begin + "\n") + (c + ("\n" + end + post))
  {
  }

  /** The last write wins in the file, exactly: an earlier update leaves no trace if and
      only if the section name holds no carriage return, the earlier content no end marker,
      and the document no begin marker left unclosed. */
  lemma FileLastUpdateWinsIff(raw: string, section: string, first: string, second: string)
    requires OneLine(section)
    ensures var m, text := MarkersOf(section), ReadText(raw);
            Update(ReadText(Update(text, m, first)), m, second) == Update(text, m, second)
            <==> NoReturn(section) && !Contains(Strip(first), m.end) && !Unclosed(text, m)
  {
    var m, text := MarkersOf(section), ReadText(raw);
    MarkersAreGood(section);
    MarkersNoReturn(section);
    ReadFacts(raw);
    assert Good(m) ==> OneLine(m.end) && m.end != "";
    hide MarkersOf, ReadText, Update, Strip, NoReturn, Contains, Good, OneLine;
    if NoReturn(section) {
      ReadOfUpdate(text, m, first);
      TranslatedIsStripped(first);
      ContainsTranslated(Strip(first), m.end);
      LastUpdateWinsIff(text, m, ReadText(Strip(first)), second);
    } else {
      LostMarkersPileUp(text, m, first, second);
    }
  }

  /** Under markers that no reading can find every update appends. */
  lemma LostMarkersPileUp(text: string, m: Markers, first: string, second: string)
    requires NoReturn(text) && !NoReturn(m.begin)
    ensures Update(ReadText(Update(text, m, first)), m, second) != Update(text, m, second)
  {
    NoMarkerFound(text, m.begin);
    var raw := Update(text, m, first);
    ReadFacts(raw);
    NoMarkerFound(ReadText(raw), m.begin);
    var block := Managed(m, first) + "\n";
    assert NoReturn(Lead(text));
    assert raw == Lead(text) + block;
    ReadConcat(Lead(text), block);
    ReadFacts(block);
    hide Managed, ReadText, NoReturn, Find;
    assert |Lead(ReadText(raw))| > |Lead(text)|;
  }

  // -- inputs that fail -----------------------------------------------------

  lemma MarkersHoldThemselves(section: string)
    ensures var m := MarkersOf(section);
            && Strip(m.end) == m.end && Contains(m.end, m.end)
            && FindBegin(m.begin, m) == Some(0) && FindEnd(m.begin, m, 0).None?
  {
    var m := MarkersOf(section);
    assert m.end[0] == '<' && m.end[|m.end| - 1] == '>';
    assert |m.end| > 0;
    hide MarkersOf;
    SolidEndsStay(m.end);
    FindFirst(m.end, m.end, 0, 0);
    FindFirst(m.begin, m.begin, 0, 0);
  }

  /** An end marker as content, a document that is one begin marker, content with a
      carriage return: none of them reads back. */
  lemma UnreadableBlocks(section: string)
    requires OneLine(section) && NoReturn(section)
    ensures var m := MarkersOf(section);
            && ManagedText(Update("", m, m.end), m) != Strip(m.end)
            && ManagedText(Update(m.begin, m, "x"), m) != Strip("x")
            && ManagedText(Update("", m, "a\rb"), m) != Strip("a\rb")
  {
    var m := MarkersOf(section);
    MarkersHoldThemselves(section);
    MarkersNoReturn(section);
    NothingToTrim();
    ReadFacts(m.begin);
    FileRoundTripIff("", section, m.end);
    FileRoundTripIff(m.begin, section, "x");
    FileRoundTripIff("", section, "a\rb");
    SolidEndsStay("a\rb");
    assert "a\rb"[1] == '\r';
    assert !NoReturn("a\rb");
    hide MarkersOf, Update, ManagedText, Find, Strip, ReadText, OneLine;
  }

  const LINE := "<!-- paa:managed:END " + "a" + " -->"
  const TWO_LINES := "a" + " -->" + "\n" + "<!-- paa:managed:END " + "a"

  lemma TwoLineMarkers()
    ensures var m := MarkersOf(TWO_LINES); m.end == LINE + "\n" + LINE && m.begin != "" && m.begin[0] == '<'
    ensures |LINE| > 1 && LINE[0] == '<' && LINE[|LINE| - 1] == '>'
    ensures NoReturn(LINE) && NoReturn(TWO_LINES) && !OneLine(TWO_LINES)
  {
    assert NoReturn("<!-- paa:managed:END ") && NoReturn("a") && NoReturn(" -->") && NoReturn("\n");
    ConcatNoReturn("<!-- paa:managed:END ", "a");
    ConcatNoReturn("<!-- paa:managed:END " + "a", " -->");
    ConcatNoReturn("a", " -->");
    ConcatNoReturn("a" + " -->", "\n");
    ConcatNoReturn("a" + " -->" + "\n", "<!-- paa:managed:END ");
    ConcatNoReturn("a" + " -->" + "\n" + "<!-- paa:managed:END ", "a");
    assert TWO_LINES[5] == '\n';
  }

  /** A section name with a line feed, whose end marker is the same line twice, and that line
      as content: no end marker in it, nothing unclosed, no carriage return, and still it
      does not read back. */
  lemma TwoLineNameIsUnreadable()
    ensures var m := MarkersOf(TWO_LINES);
            && !OneLine(TWO_LINES) && ReadsBack("", TWO_LINES, LINE)
            && ManagedText(Update("", m, LINE), m) != Strip(LINE)
  {
    var m := MarkersOf(TWO_LINES);
    TwoLineMarkers();
    MarkersNoReturn(TWO_LINES);
    assert NoReturn("");
    hide MarkersOf, LINE, TWO_LINES, NoReturn, OneLine;
    SolidEndsStay(LINE);
    FindNothingShort(LINE, m.end);
    FindNothingShort("", m.begin);
    UpdatedNoReturn("", m, LINE);
    ReadFacts(Update("", m, LINE));
    EndStartsOver(m, LINE);
  }

  lemma EndStartsOver(m: Markers, line: string)
    requires m.end == line + "\n" + line && m.begin != "" && m.begin[0] == '<' && |line| > 1 && Strip(line) == line
    ensures ExtractBlock(Update("", m, line), m) != Some(line)
  {
    hide *;
    BeforeOfNothing(m);
    UpdateIsLaid("", m, line);
    StartsOver(Update("", m, line), Before("", m), m, line, After("", m));
  }

  lemma StartsOver(text: string, pre: string, m: Markers, line: string, post: string)
    requires Laid(text, pre, m, line, post) && pre == "\n\n"
    requires m.end == line + "\n" + line && m.begin != "" && m.begin[0] == '<' && |line| > 1
    ensures ExtractBlock(text, m) != Some(line)
  {
    hide *;
    LaidEnds(text, pre, m, line, post);
    var at := 2 + |m.begin|;
    FirstAfterFeeds(text, m.begin);
    BeginAt(text, m, 2);
    var tail := text[at..at + |line| + 2 + |m.end|];
    TailStartsOver(tail, line, m.end);
    OccursInCopy(text, tail, at, m.end, 1);
    EarlyEndReadsNothing(text, m, 2, line);
  }

  lemma BeginAt(text: string, m: Markers, i: nat)
    requires Find(text, m.begin, 0) == Some(i)
    ensures FindBegin(text, m) == Some(i)
  {
  }

  lemma BeforeOfNothing(m: Markers)
    requires m.begin != ""
    ensures Before("", m) == "\n\n"
  {
    FindNothingShort("", m.begin);
  }

  lemma FirstAfterFeeds(text: string, m: string)
    requires |text| >= 2 + |m| && text[0..2 + |m|] == "\n\n" + m && m != "" && m[0] == '<'
    ensures Find(text, m, 0) == Some(2)
  {
    var head := text[0..2 + |m|];
    assert text[0] == head[0] == '\n' && text[1] == head[1] == '\n';
    assert !Occurs(text, m, 0) by { assert text[0 + 0] != m[0]; }
    assert !Occurs(text, m, 1) by { assert text[1 + 0] != m[0]; }
    assert Occurs(text, m, 2) by { forall x | 0 <= x < |m| ensures text[2 + x] == m[x] { assert head[2 + x] == m[x]; } }
    FindFirst(text, m, 0, 2);
  }

  lemma TailStartsOver(tail: string, line: string, end: string)
    requires end == line + "\n" + line && tail == "\n" + line + "\n" + end
    ensures Occurs(tail, end, 1)
  {
    assert tail == "\n" + end + ("\n" + line);
    forall x | 0 <= x < |end| ensures tail[1 + x] == end[x] { }
  }

  /** A document with Windows line ends loses them when a block is appended. */
  lemma WindowsFileIsRewritten(section: string, content: string)
    ensures !("hi\r\n" <= Update(ReadText("hi\r\n"), MarkersOf(section), content))
  {
    var m := MarkersOf(section);
    var raw := "hi\r\n";
    ReadFacts(raw);
    assert raw[2] == '\r';
    assert !NoReturn(raw);
    FindNothingShort(ReadText(raw), m.begin);
    hide ReadText, Update;
    AppendPreservesIff(raw, m, content);
  }

  lemma FindNothingShort(text: string, pat: string)
    requires |text| < |pat|
    ensures Find(text, pat, 0).None?
  {
  }

  // -- the vault ------------------------------------------------------------

  /** The documents on disk, as raw file contents. */
  class Vault {
    var documents: map<BeliefDocument, string>

    constructor ()
      ensures documents == map[]
    {
      documents := map[];
    }

    /** `read_managed` */
    method ReadManaged(doc: BeliefDocument, section: string) returns (r: string)
      ensures r == if doc in documents then ManagedText(documents[doc], MarkersOf(section)) else ""
    {
      if doc !in documents { return ""; }
      var block := ExtractBlock(ReadText(documents[doc]), MarkersOf(section));
      r := if block.Some? then block.value else "";
    }

    /** `update_belief_state`: one file changes, to the updated translation of what was
        there or to a new document, and reads back exactly as above. */
    method UpdateBeliefState(doc: BeliefDocument, section: string, content: string)
      modifies this
      ensures documents.Keys == old(documents).Keys + {doc}
      ensures forall d :: d in old(documents) && d != doc ==> documents[d] == old(documents)[d]
      ensures var m := MarkersOf(section);
              documents[doc] == if doc in old(documents) then Update(ReadText(old(documents)[doc]), m, content) else NewDocument(doc, m, content)
      ensures NoReturn(section) && NoReturn(Strip(content))
              && (if doc in old(documents) then Unambiguous(ReadText(old(documents)[doc]), MarkersOf(section), Strip(content))
                  else EndUnambiguous(MarkersOf(section), Strip(content))) ==>
                ManagedText(documents[doc], MarkersOf(section)) == Strip(content)
      ensures OneLine(section) ==>
                (ManagedText(documents[doc], MarkersOf(section)) == Strip(content)
                 <==> ReadsBack(if doc in old(documents) then ReadText(old(documents)[doc]) else "", section, content))
    {
      hide *;
      var m := MarkersOf(section);
      var newText;
      if doc !in documents {
        newText := NewDocument(doc, m, content);
        if OneLine(section) { NewReadsBackIff(doc, section, content); }
        if NoReturn(section) && NoReturn(Strip(content)) && EndUnambiguous(m, Strip(content)) {
          UnambiguousNewReadsBack(doc, section, content);
        }
      } else {
        newText := Rewrite(ReadText(documents[doc]), m, Managed(m, content), content);
        if OneLine(section) { FileRoundTripIff(documents[doc], section, content); }
        if NoReturn(section) && NoReturn(Strip(content)) && Unambiguous(ReadText(documents[doc]), m, Strip(content)) {
          UnambiguousFileReadsBack(documents[doc], section, content);
        }
      }
      documents := documents[doc := newText];
    }
  }

  /** The text of a document with its block replaced, or appended after a blank line. */
  method Rewrite(existing: string, m: Markers, managed: string, ghost content: string) returns (newText: string)
    requires managed == Managed(m, content)
    ensures newText == Update(existing, m, content)
  {
    hide Find, Managed;
    if HasBlock(existing, m) {
      newText := ReplaceBlock(existing, m, managed);
    } else {
      var sep := if existing != "" && existing[|existing| - 1] == '\n' then "" else "\n";
      newText := existing + sep + "\n" + managed + "\n";
    }
  }

  lemma NewReadsBackIff(doc: BeliefDocument, section: string, content: string)
    requires OneLine(section)
    ensures ManagedText(NewDocument(doc, MarkersOf(section), content), MarkersOf(section)) == Strip(content) <==> ReadsBack("", section, content)
  {
    hide *;
    NewRoundTripIff(doc, section, content);
    EmptyReadsBack(section, content);
  }

  /** A new document has nothing unclosed in it. */
  lemma EmptyReadsBack(section: string, content: string)
    ensures var m, c := MarkersOf(section), Strip(content);
            ReadsBack("", section, content) <==> if NoReturn(section) then !Contains(c, m.end) && NoReturn(c) else c == ""
  {
    var m := MarkersOf(section);
    assert m.begin != "";
    hide NoReturn, Strip, MarkersOf;
    assert Find("", m.begin, 0).None?;
  }
}
