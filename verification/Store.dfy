/** The append-only store of `src/paa/ledger/store.py`: one table of rows, a head
    row per lineage and a table of snapshots. A transaction is one method call. */
module Store {
  import opened Ledger
  import opened Replay

  // -- lineages of a table --------------------------------------------------

  function Lineage(table: seq<LedgerEvent>, cid: CorrelationId): (h: seq<LedgerEvent>)
    ensures forall e :: e in h ==> e.draft.cid == cid && e in table
  {
    if table == [] then []
    else
      var n := |table| - 1;
      if table[n].draft.cid == cid then Lineage(table[..n], cid) + [table[n]] else Lineage(table[..n], cid)
  }

  lemma LineageSnoc(table: seq<LedgerEvent>, e: LedgerEvent, cid: CorrelationId)
    ensures Lineage(table + [e], cid)
            == if e.draft.cid == cid then Lineage(table, cid) + [e] else Lineage(table, cid)
  {
    assert (table + [e])[..|table|] == table;
  }

  lemma {:induction false} LineageHolds(table: seq<LedgerEvent>, i: nat)
    requires i < |table|
    ensures table[i] in Lineage(table, table[i].draft.cid)
  {
    var n := |table| - 1;
    if i < n {
      LineageHolds(table[..n], i);
    }
  }

  lemma KeyInLineage(table: seq<LedgerEvent>, key: Key)
    ensures HasKey(table, key) <==> HasKey(Lineage(table, key.cid), key)
  {
    var h := Lineage(table, key.cid);
    if HasKey(table, key) {
      var i :| 0 <= i < |table| && table[i].draft.Key() == key;
      LineageHolds(table, i);
      var j :| 0 <= j < |h| && h[j] == table[i];
    }
    if HasKey(h, key) {
      var j :| 0 <= j < |h| && h[j].draft.Key() == key;
      assert h[j] in table;
    }
  }

  // -- hash chains ----------------------------------------------------------

  function PrevOf(h: seq<LedgerEvent>, k: nat): Digest
    requires k <= |h|
  {
    if k == 0 || h[k - 1].eventHash.None? then Genesis else h[k - 1].eventHash.value
  }

  predicate LinkedAt(h: seq<LedgerEvent>, k: nat)
    requires k < |h|
  {
    h[k].VerifyDigest() && h[k].prevHash == Some(PrevOf(h, k)) && h[k].stateVersion == Some(k + 1)
  }

  /** Dense versions from 1, every digest recomputes and commits to its predecessor. */
  predicate WellChained(h: seq<LedgerEvent>) {
    forall k :: 0 <= k < |h| ==> LinkedAt(h, k)
  }

  datatype Problem = DigestMismatch(at: nat) | BrokenLink(at: nat) | MissingVersion(at: nat) | VersionGap(at: nat)

  /** The version a row should carry: one after what its predecessor actually
      carries, or after what an unsealed predecessor was expected to carry. */
  function ExpectedVersion(h: seq<LedgerEvent>, k: nat): nat
    requires k <= |h|
  {
    if k == 0 then 1
    else if h[k - 1].stateVersion.Some? then h[k - 1].stateVersion.value + 1
    else ExpectedVersion(h, k - 1) + 1
  }

  function ProblemsAt(h: seq<LedgerEvent>, k: nat): seq<Problem>
    requires k < |h|
  {
    (if !h[k].VerifyDigest() then [DigestMismatch(k)] else [])
    + (if h[k].prevHash != Some(PrevOf(h, k)) then [BrokenLink(k)] else [])
    + if h[k].stateVersion.None? then [MissingVersion(k)]
      else if h[k].stateVersion.value != ExpectedVersion(h, k) then [VersionGap(k)]
      else []
  }

  function ProblemsBefore(h: seq<LedgerEvent>, k: nat): seq<Problem>
    requires k <= |h|
  {
    if k == 0 then [] else ProblemsBefore(h, k - 1) + ProblemsAt(h, k - 1)
  }

  lemma {:induction false} NoProblemsIffLinked(h: seq<LedgerEvent>, k: nat)
    requires k <= |h|
    ensures ProblemsBefore(h, k) == [] <==> forall i :: 0 <= i < k ==> LinkedAt(h, i)
    ensures ProblemsBefore(h, k) == [] ==> ExpectedVersion(h, k) == k + 1
  {
    if k > 0 {
      NoProblemsIffLinked(h, k - 1);
      var here := ProblemsAt(h, k - 1);
      assert ProblemsBefore(h, k) == [] <==> ProblemsBefore(h, k - 1) == [] && here == [] by {
        assert |ProblemsBefore(h, k)| == |ProblemsBefore(h, k - 1)| + |here|;
      }
      assert ProblemsBefore(h, k - 1) == [] ==> (here == [] <==> LinkedAt(h, k - 1));
      assert (forall i :: 0 <= i < k ==> LinkedAt(h, i))
             <==> (forall i :: 0 <= i < k - 1 ==> LinkedAt(h, i)) && LinkedAt(h, k - 1);
    }
  }

  /** The last version on record before `k` is `v`, `k - j` rows back; or there is none, and
      versions start at 1. */
  predicate Succeeds(h: seq<LedgerEvent>, k: nat, version: nat)
    requires k <= |h|
  {
    || (version == k + 1 && forall i :: 0 <= i < k ==> h[i].stateVersion.None?)
    || exists j :: 0 <= j < k && h[j].stateVersion == Some(version - (k - j)) && forall i :: j < i < k ==> h[i].stateVersion.None?
  }

  lemma {:induction false} ExpectedSucceeds(h: seq<LedgerEvent>, k: nat, version: nat)
    requires k <= |h|
    ensures Succeeds(h, k, version) <==> version == ExpectedVersion(h, k)
  {
    if k > 0 {
      if h[k - 1].stateVersion.Some? {
        if Succeeds(h, k, version) {
          var j :| 0 <= j < k && h[j].stateVersion == Some(version - (k - j)) && forall i :: j < i < k ==> h[i].stateVersion.None?;
          assert j == k - 1;
        }
      } else {
        if version > 0 { ExpectedSucceeds(h, k - 1, version - 1); }
        if j :| 0 <= j < k && h[j].stateVersion == Some(version - (k - j)) && forall i :: j < i < k ==> h[i].stateVersion.None? {
          assert j < k - 1;
        }
      }
    }
  }

  /** What a report says of each row: its digest, its link to its predecessor and its
      version are judged by themselves, so one gap is reported once, where it is. */
  lemma {:induction false} ReportedIff(h: seq<LedgerEvent>, n: nat, k: nat)
    requires n <= |h|
    ensures var found := ProblemsBefore(h, n);
            && (DigestMismatch(k) in found <==> k < n && !h[k].VerifyDigest())
            && (BrokenLink(k) in found <==> k < n && h[k].prevHash != Some(PrevOf(h, k)))
            && (MissingVersion(k) in found <==> k < n && h[k].stateVersion.None?)
            && (VersionGap(k) in found <==> k < n && h[k].stateVersion.Some? && !Succeeds(h, k, h[k].stateVersion.value))
  {
    hide LedgerEvent.VerifyDigest, Succeeds, PrevOf, ProblemsAt;
    if n > 0 {
      ReportedIff(h, n - 1, k);
      ReportedAt(h, n - 1, k);
    }
  }

  lemma ReportedAt(h: seq<LedgerEvent>, n: nat, k: nat)
    requires n < |h|
    ensures var found := ProblemsAt(h, n);
            && (DigestMismatch(k) in found <==> k == n && !h[k].VerifyDigest())
            && (BrokenLink(k) in found <==> k == n && h[k].prevHash != Some(PrevOf(h, k)))
            && (MissingVersion(k) in found <==> k == n && h[k].stateVersion.None?)
            && (VersionGap(k) in found <==> k == n && h[k].stateVersion.Some? && !Succeeds(h, k, h[k].stateVersion.value))
  {
    hide LedgerEvent.VerifyDigest, Succeeds, ExpectedVersion, PrevOf;
    if h[n].stateVersion.Some? { ExpectedSucceeds(h, n, h[n].stateVersion.value); }
  }

  /** `verify_chain`: the loop's running expectations amount to comparing each row
      with its predecessor, and it reports nothing exactly on a well-formed chain. */
  method FindChainProblems(events: seq<LedgerEvent>) returns (found: seq<Problem>)
    ensures |found| == 0 <==> WellChained(events)
    ensures found == ProblemsBefore(events, |events|)
  {
    found := [];
    var expectedPrev := Genesis;
    var expectedVersion: nat := 1;
    for k := 0 to |events|
      invariant expectedPrev == PrevOf(events, k)
      invariant expectedVersion == ExpectedVersion(events, k)
      invariant found == ProblemsBefore(events, k)
    {
      var event := events[k];
      if !event.VerifyDigest() {
        found := found + [DigestMismatch(k)];
      }
      if event.prevHash != Some(expectedPrev) {
        found := found + [BrokenLink(k)];
      }
      var version := expectedVersion;
      if event.stateVersion.None? {
        found := found + [MissingVersion(k)];
      } else {
        version := event.stateVersion.value;
        if version != expectedVersion {
          found := found + [VersionGap(k)];
        }
      }
      expectedPrev := if event.eventHash.Some? then event.eventHash.value else Genesis;
      expectedVersion := version + 1;
    }
    NoProblemsIffLinked(events, |events|);
  }

  /** Two clean histories that end in the same digest have the same length and
      agree on every digested field of every event. */
  lemma {:induction false} SameTipSameHistory(a: seq<LedgerEvent>, b: seq<LedgerEvent>)
    requires WellChained(a) && WellChained(b) && a != [] && b != []
    requires a[|a| - 1].eventHash == b[|b| - 1].eventHash
    ensures |a| == |b|
    ensures forall k :: 0 <= k < |a| ==> SameDigested(a[k], b[k])
    decreases |a|
  {
    var m, n := |a| - 1, |b| - 1;
    assert LinkedAt(a, m) && LinkedAt(b, n);
    if m > 0 {
      assert LinkedAt(a, m - 1) && LinkedAt(b, n - 1);
      ChainPrefix(a, m);
      ChainPrefix(b, n);
      SameTipSameHistory(a[..m], b[..n]);
      forall k | 0 <= k < |a| ensures SameDigested(a[k], b[k]) {
        if k < m { assert a[..m][k] == a[k] && b[..n][k] == b[k]; }
      }
    }
  }

  predicate SameDigested(x: LedgerEvent, y: LedgerEvent) {
    && x.draft.cid == y.draft.cid && x.draft.etype == y.draft.etype && x.draft.payload == y.draft.payload
    && x.draft.at == y.draft.at && x.stateVersion == y.stateVersion
    && x.prevHash == y.prevHash && x.eventHash == y.eventHash
  }

  lemma ChainPrefix(h: seq<LedgerEvent>, n: nat)
    requires WellChained(h) && n <= |h|
    ensures WellChained(h[..n])
  {
    forall k | 0 <= k < n ensures LinkedAt(h[..n], k) {
      assert LinkedAt(h, k);
    }
  }

  lemma ChainSnoc(h: seq<LedgerEvent>, d: Draft, sid: nat)
    requires WellChained(h)
    ensures WellChained(AppendTo(h, d, sid))
  {
    var h' := AppendTo(h, d, sid);
    forall k | 0 <= k < |h'| ensures LinkedAt(h', k) {
      if k < |h| { assert LinkedAt(h, k); }
    }
  }

  // -- the table as a value -------------------------------------------------

  predicate KeysUnique(table: seq<LedgerEvent>) {
    forall i, j :: 0 <= i < j < |table| ==> table[i].draft.Key() != table[j].draft.Key()
  }

  ghost predicate SoundTable(table: seq<LedgerEvent>) {
    && KeysUnique(table)
    && (forall i :: 0 <= i < |table| ==> table[i].sequenceId == Some(i + 1))
    && (forall cid :: WellChained(Lineage(table, cid)))
  }

  /** One append: the next row, or nothing when the key is taken. */
  function AppendRow(table: seq<LedgerEvent>, d: Draft): seq<LedgerEvent> {
    if HasKey(table, d.Key()) then table
    else
      var h := Lineage(table, d.cid);
      table + [Seal(d, |table| + 1, |h| + 1, Tip(h))]
  }

  /** An append is `AppendTo` on its own lineage and invisible to the others. */
  lemma AppendRowIsLocal(table: seq<LedgerEvent>, d: Draft, cid: CorrelationId)
    ensures Lineage(AppendRow(table, d), cid)
            == if cid == d.cid then AppendTo(Lineage(table, cid), d, |table| + 1) else Lineage(table, cid)
  {
    KeyInLineage(table, d.Key());
    if !HasKey(table, d.Key()) {
      var h := Lineage(table, d.cid);
      LineageSnoc(table, Seal(d, |table| + 1, |h| + 1, Tip(h)), cid);
    }
  }

  lemma AppendRowKeepsSound(table: seq<LedgerEvent>, d: Draft)
    requires SoundTable(table)
    ensures SoundTable(AppendRow(table, d))
  {
    hide WellChained;
    forall cid ensures WellChained(Lineage(AppendRow(table, d), cid)) {
      hide AppendRow, AppendTo, KeysUnique;
      AppendRowIsLocal(table, d, cid);
      ChainSnoc(Lineage(table, cid), d, |table| + 1);
    }
    hide Lineage, Tip;
  }

  function DeliverAll(table: seq<LedgerEvent>, ds: seq<Draft>): seq<LedgerEvent>
    decreases |ds|
  {
    if ds == [] then table else DeliverAll(AppendRow(table, ds[0]), ds[1..])
  }

  /** The deliveries whose key has not been seen yet. */
  function FirstDeliveries(ds: seq<Draft>, seen: set<Key>): seq<Draft> {
    if ds == [] then []
    else if ds[0].Key() in seen then FirstDeliveries(ds[1..], seen)
    else [ds[0]] + FirstDeliveries(ds[1..], seen + {ds[0].Key()})
  }

  lemma HasKeyAfter(table: seq<LedgerEvent>, d: Draft, key: Key)
    ensures HasKey(AppendRow(table, d), key) <==> HasKey(table, key) || key == d.Key()
  {
    var t' := AppendRow(table, d);
    if !HasKey(table, d.Key()) {
      assert t'[|table|].draft.Key() == d.Key();
    }
    if HasKey(table, key) {
      var i :| 0 <= i < |table| && table[i].draft.Key() == key;
      assert t'[i] == table[i];
    }
  }

  /** Effectively-once delivery: at-least-once traffic leaves exactly the ledger its
      first deliveries would. */
  lemma {:induction false} DuplicatesChangeNothing(table: seq<LedgerEvent>, ds: seq<Draft>, seen: set<Key>)
    requires forall key :: key in seen ==> HasKey(table, key)
    ensures DeliverAll(table, ds) == DeliverAll(table, FirstDeliveries(ds, seen))
    decreases |ds|
  {
    if ds != [] {
      var d := ds[0];
      var t' := AppendRow(table, d);
      forall key | key in seen + {d.Key()} ensures HasKey(t', key) { HasKeyAfter(table, d, key); }
      if d.Key() in seen {
        DuplicatesChangeNothing(table, ds[1..], seen);
      } else {
        var rest := FirstDeliveries(ds[1..], seen + {d.Key()});
        DuplicatesChangeNothing(t', ds[1..], seen + {d.Key()});
        assert ([d] + rest)[1..] == rest;
      }
    }
  }

  /** A whole delivery repeated later, in any order, is absorbed. */
  lemma {:induction false} RedeliveryIsAbsorbed(table: seq<LedgerEvent>, ds: seq<Draft>)
    requires forall d :: d in ds ==> HasKey(table, d.Key())
    ensures DeliverAll(table, ds) == table
    decreases |ds|
  {
    if ds != [] {
      assert ds[0] in ds;
      RedeliveryIsAbsorbed(table, ds[1..]);
    }
  }

  // -- heads and snapshots --------------------------------------------------

  datatype Head = Head(
    sessionId: Option<string>, latestSequenceId: Option<nat>, latestStateVersion: Option<nat>,
    latestEventType: EventType, latestEventHash: Option<Digest>, mode: Modality, isTerminal: bool)

  datatype Snapshot = Snapshot(cid: CorrelationId, version: nat, projection: Option<TaskProjection>)

  /** The last session any event names. */
  function LastSession(h: seq<LedgerEvent>): Option<string> {
    if h == [] then None
    else if h[|h| - 1].draft.sessionId.Some? then h[|h| - 1].draft.sessionId
    else LastSession(h[..|h| - 1])
  }

  /** The head row mirrors the newest event and the last session named, and its terminal
      flag is never set on a lineage whose replayed projection is still live. */
  ghost predicate HeadMirrors(cid: CorrelationId, h: seq<LedgerEvent>, heads: map<CorrelationId, Head>) {
    (cid in heads <==> h != []) &&
    (cid in heads ==>
      var head, last := heads[cid], h[|h| - 1];
      && head.latestSequenceId == last.sequenceId && head.latestStateVersion == last.stateVersion
      && head.latestEventType == last.draft.etype && head.latestEventHash == last.eventHash
      && head.mode == last.draft.mode && head.sessionId == LastSession(h)
      && (last.draft.etype.IsTerminal() ==> head.isTerminal)
      && (head.isTerminal ==> Project(cid, h).phase.IsTerminal()))
  }

  /** `_update_head` */
  function HeadAfter(heads: map<CorrelationId, Head>, e: LedgerEvent): map<CorrelationId, Head> {
    var d := e.draft;
    var session := if d.sessionId.Some? || d.cid !in heads then d.sessionId else heads[d.cid].sessionId;
    heads[d.cid := Head(session, e.sequenceId, e.stateVersion, d.etype, e.eventHash, d.mode, d.etype.IsTerminal())]
  }

  /** The head table after one append, suppressed or not. */
  function AppendHeads(table: seq<LedgerEvent>, heads: map<CorrelationId, Head>, d: Draft): map<CorrelationId, Head> {
    if HasKey(table, d.Key()) then heads
    else
      var h := Lineage(table, d.cid);
      HeadAfter(heads, Seal(d, |table| + 1, |h| + 1, Tip(h)))
  }

  lemma HeadMirrorsAfter(cid: CorrelationId, h: seq<LedgerEvent>, heads: map<CorrelationId, Head>, e: LedgerEvent)
    requires HeadMirrors(cid, h, heads)
    ensures HeadMirrors(cid, if e.draft.cid == cid then h + [e] else h, HeadAfter(heads, e))
  {
    ProjectSnoc(cid, h, e);
    assert (h + [e])[..|h|] == h;
    assert LastSession(h + [e]) == if e.draft.sessionId.Some? then e.draft.sessionId else LastSession(h);
    hide Project;
  }

  lemma HeadsMirrorAfter(table: seq<LedgerEvent>, heads: map<CorrelationId, Head>, e: LedgerEvent)
    requires forall cid :: HeadMirrors(cid, Lineage(table, cid), heads)
    ensures forall cid :: HeadMirrors(cid, Lineage(table + [e], cid), HeadAfter(heads, e))
  {
    hide HeadMirrors, HeadAfter;
    forall cid ensures HeadMirrors(cid, Lineage(table + [e], cid), HeadAfter(heads, e)) {
      LineageSnoc(table, e, cid);
      HeadMirrorsAfter(cid, Lineage(table, cid), heads, e);
    }
  }

  /** The projection of the lineage as it stood at that version. */
  ghost predicate IsTrueProjection(table: seq<LedgerEvent>, cid: CorrelationId, version: nat, p: TaskProjection) {
    0 < version <= |Lineage(table, cid)| && p == Project(cid, Lineage(table, cid)[..version])
  }

  ghost predicate Faithful(table: seq<LedgerEvent>, snapshots: seq<Snapshot>) {
    forall s :: s in snapshots && s.projection.Some? ==> IsTrueProjection(table, s.cid, s.version, s.projection.value)
  }

  class LedgerStore {
    var table: seq<LedgerEvent>
    var heads: map<CorrelationId, Head>
    var snapshots: seq<Snapshot>

    ghost predicate Valid()
      reads this
    {
      SoundTable(table) && forall cid :: HeadMirrors(cid, Lineage(table, cid), heads)
    }

    /** Every snapshot holds the projection its version really had. */
    ghost predicate SnapshotsFaithful()
      reads this
    {
      Faithful(table, snapshots)
    }

    constructor ()
      ensures Valid() && SnapshotsFaithful() && table == [] && snapshots == []
    {
      table, heads, snapshots := [], map[], [];
    }

    method FindByKey(key: Key) returns (found: Option<nat>)
      ensures found.Some? <==> HasKey(table, key)
      ensures found.Some? ==> found.value < |table| && table[found.value].draft.Key() == key
    {
      for i := 0 to |table|
        invariant forall j :: 0 <= j < i ==> table[j].draft.Key() != key
      {
        if table[i].draft.Key() == key { return Some(i); }
      }
      return None;
    }

    /** `_chain_tip`: the highest version of a lineage and its digest. */
    method ChainTip(cid: CorrelationId) returns (version: nat, tip: Digest)
      requires Valid()
      ensures version == |Lineage(table, cid)| && tip == Tip(Lineage(table, cid))
    {
      hide SoundTable, HeadMirrors, Project;
      version, tip := 0, Genesis;
      assert table[..|table|] == table;
      for i := 0 to |table|
        invariant version == |Lineage(table[..i], cid)| && tip == Tip(Lineage(table[..i], cid))
      {
        assert table[..i + 1] == table[..i] + [table[i]];
        LineageSnoc(table[..i], table[i], cid);
        if table[i].draft.cid == cid {
          LineageAt(table, i);
          if table[i].stateVersion.Some? && table[i].eventHash.Some? && table[i].stateVersion.value > version {
            version, tip := table[i].stateVersion.value, table[i].eventHash.value;
          }
        }
      }
    }

    /** `append` */
    method Append(d: Draft) returns (stored: LedgerEvent)
      requires Valid()
      modifies this`table, this`heads
      ensures Valid()
      ensures table == AppendRow(old(table), d) && heads == AppendHeads(old(table), old(heads), d)
      ensures Lineage(table, d.cid) == AppendTo(old(Lineage(table, d.cid)), d, old(|table|) + 1)
      ensures forall c :: c != d.cid ==> Lineage(table, c) == old(Lineage(table, c))
      ensures stored in table && stored.draft.Key() == d.Key()
      ensures !old(HasKey(Lineage(table, d.cid), d.Key())) ==> Lineage(table, d.cid) == old(Lineage(table, d.cid)) + [stored]
      ensures old(SnapshotsFaithful()) ==> SnapshotsFaithful()
    {
      hide SoundTable, HeadMirrors, HeadAfter, Project, Faithful, Lineage, AppendTo, Tip;
      AppendKeepsTables(table, heads, d);
      if SnapshotsFaithful() { FaithfulSurvives(table, AppendRow(table, d), snapshots); }
      KeyInLineage(table, d.Key());
      var existing := FindByKey(d.Key());
      if existing.Some? {
        return table[existing.value];
      }
      var version, prev := ChainTip(d.cid);
      stored := Seal(d, |table| + 1, version + 1, prev);
      LineageSnoc(table, stored, d.cid);
      table := table + [stored];
      heads := HeadAfter(heads, stored);
      assert stored == table[|table| - 1];
    }

    /** `read_correlation`: rows after a version. The scan order already is the
        version order, and the rows are exactly the tail of the lineage. */
    method ReadCorrelation(cid: CorrelationId, fromVersion: nat) returns (events: seq<LedgerEvent>)
      requires Valid()
      ensures events == if fromVersion <= |Lineage(table, cid)| then Lineage(table, cid)[fromVersion..] else []
      ensures WellChained(Lineage(table, cid))
    {
      hide SoundTable, HeadMirrors, Project;
      events := [];
      assert table[..|table|] == table;
      for i := 0 to |table|
        invariant var h := Lineage(table[..i], cid);
                  events == if fromVersion <= |h| then h[fromVersion..] else []
      {
        assert table[..i + 1] == table[..i] + [table[i]];
        LineageSnoc(table[..i], table[i], cid);
        if table[i].draft.cid == cid {
          LineageAt(table, i);
          if table[i].stateVersion.Some? && table[i].stateVersion.value > fromVersion {
            events := events + [table[i]];
          }
        }
      }
      SoundLineage(table, cid);
    }

    /** `save_snapshot`: upsert on (correlation, version). */
    method SaveSnapshot(cid: CorrelationId, version: nat, projection: Option<TaskProjection>)
      modifies this`snapshots
      ensures forall s :: s in snapshots <==>
                s == Snapshot(cid, version, projection) || (s in old(snapshots) && !(s.cid == cid && s.version == version))
      ensures old(SnapshotsFaithful()) ==>
                (SnapshotsFaithful() <==> projection.None? || IsTrueProjection(table, cid, version, projection.value))
    {
      hide IsTrueProjection;
      var kept: seq<Snapshot> := [];
      for i := 0 to |snapshots|
        invariant forall s :: s in kept <==> s in snapshots[..i] && !(s.cid == cid && s.version == version)
      {
        assert snapshots[..i + 1] == snapshots[..i] + [snapshots[i]];
        if !(snapshots[i].cid == cid && snapshots[i].version == version) {
          kept := kept + [snapshots[i]];
        }
      }
      assert snapshots[..|snapshots|] == snapshots;
      snapshots := kept + [Snapshot(cid, version, projection)];
    }

    /** `load_snapshot`: the highest version saved for a lineage. */
    method LoadSnapshot(cid: CorrelationId) returns (best: Option<Snapshot>)
      ensures best.None? <==> forall s :: s in snapshots ==> s.cid != cid
      ensures best.Some? ==> best.value in snapshots && best.value.cid == cid
      ensures best.Some? ==> forall s :: s in snapshots && s.cid == cid ==> s.version <= best.value.version
    {
      best := None;
      for i := 0 to |snapshots|
        invariant best.None? <==> forall s :: s in snapshots[..i] ==> s.cid != cid
        invariant best.Some? ==> best.value in snapshots && best.value.cid == cid
        invariant best.Some? ==> forall s :: s in snapshots[..i] && s.cid == cid ==> s.version <= best.value.version
      {
        assert snapshots[..i + 1] == snapshots[..i] + [snapshots[i]];
        if snapshots[i].cid == cid && (best.None? || snapshots[i].version > best.value.version) {
          best := Some(snapshots[i]);
        }
      }
      assert snapshots[..|snapshots|] == snapshots;
    }

    /** `project`: starting from a faithful snapshot, at whatever version it was
        taken, gives the projection replayed from genesis. `None` is the refusal to
        replay an empty history. */
    method ProjectTask(cid: CorrelationId) returns (r: Option<TaskProjection>)
      requires Valid()
      ensures Lineage(table, cid) != [] ==> r.Some?
      ensures SnapshotsFaithful() && r.Some? ==> r.value == Project(cid, Lineage(table, cid))
      ensures SnapshotsFaithful() ==> (r.None? <==> Lineage(table, cid) == [])
    {
      hide HeadMirrors, SoundTable, ApplyEvent;
      var fromVersion: nat, initial: Option<TaskProjection> := 0, None;
      var snap := LoadSnapshot(cid);
      if snap.Some? && snap.value.projection.Some? {
        fromVersion, initial := snap.value.version, snap.value.projection;
      }
      var events := ReadCorrelation(cid, fromVersion);
      ghost var h := Lineage(table, cid);
      if SnapshotsFaithful() && initial.Some? {
        assert h == h[..fromVersion] + h[fromVersion..];
        ReplaySplits(Initial(cid), h[..fromVersion], h[fromVersion..]);
      }
      if events == [] && initial.Some? {
        return initial;
      }
      r := Replay.Replay(events, initial);
      assert events != [] ==> events[0] in h;
    }
  }

  lemma SoundLineage(table: seq<LedgerEvent>, cid: CorrelationId)
    requires SoundTable(table)
    ensures WellChained(Lineage(table, cid))
  {
  }

  /** A sound row sits in its lineage at the position its version names. */
  lemma LineageAt(table: seq<LedgerEvent>, i: nat)
    requires SoundTable(table) && i < |table|
    ensures var h := Lineage(table[..i + 1], table[i].draft.cid);
            |h| == |Lineage(table[..i], table[i].draft.cid)| + 1 && LinkedAt(h, |h| - 1)
  {
    var cid := table[i].draft.cid;
    PrefixOfLineage(table, i + 1, cid);
    ChainPrefix(Lineage(table, cid), |Lineage(table[..i + 1], cid)|);
    assert table[..i + 1] == table[..i] + [table[i]];
    LineageSnoc(table[..i], table[i], cid);
    var h := Lineage(table[..i + 1], cid);
    assert h == Lineage(table, cid)[..|h|];
  }

  lemma {:induction false} PrefixOfLineage(table: seq<LedgerEvent>, n: nat, cid: CorrelationId)
    requires n <= |table|
    ensures Lineage(table[..n], cid) <= Lineage(table, cid)
    decreases |table|
  {
    if n < |table| {
      PrefixOfLineage(table[..|table| - 1], n, cid);
      assert table[..|table| - 1][..n] == table[..n];
    } else {
      assert table[..n] == table;
    }
  }

  /** An append, suppressed or not, keeps both tables and every other lineage. */
  lemma AppendKeepsTables(table: seq<LedgerEvent>, heads: map<CorrelationId, Head>, d: Draft)
    requires SoundTable(table) && forall cid :: HeadMirrors(cid, Lineage(table, cid), heads)
    ensures table <= AppendRow(table, d) && SoundTable(AppendRow(table, d))
    ensures forall cid :: HeadMirrors(cid, Lineage(AppendRow(table, d), cid), AppendHeads(table, heads, d))
    ensures forall cid :: Lineage(AppendRow(table, d), cid)
                          == if cid == d.cid then AppendTo(Lineage(table, cid), d, |table| + 1) else Lineage(table, cid)
  {
    AppendRowKeepsSound(table, d);
    forall cid ensures Lineage(AppendRow(table, d), cid)
                       == if cid == d.cid then AppendTo(Lineage(table, cid), d, |table| + 1) else Lineage(table, cid) {
      AppendRowIsLocal(table, d, cid);
    }
    hide SoundTable, HeadMirrors, HeadAfter, Lineage, AppendTo, Tip, HasKey;
    if !HasKey(table, d.Key()) {
      var h := Lineage(table, d.cid);
      HeadsMirrorAfter(table, heads, Seal(d, |table| + 1, |h| + 1, Tip(h)));
    }
  }

  /** Later appends keep every snapshot faithful. */
  lemma FaithfulSurvives(before: seq<LedgerEvent>, after: seq<LedgerEvent>, snapshots: seq<Snapshot>)
    requires before <= after && Faithful(before, snapshots)
    ensures Faithful(after, snapshots)
  {
    hide Project, Lineage;
    forall s | s in snapshots && s.projection.Some? ensures IsTrueProjection(after, s.cid, s.version, s.projection.value) {
      PrefixOfLineage(after, |before|, s.cid);
      assert after[..|before|] == before;
      assert Lineage(before, s.cid)[..s.version] == Lineage(after, s.cid)[..s.version];
    }
  }
}
