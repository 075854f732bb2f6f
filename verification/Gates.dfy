/** Human-gate questions as a lineage records them (`src/paa/agents/orchestrator.py`). */
module Gates {
  import opened Ledger

  datatype GateQuestion = GateQuestion(role: Option<Role>, disc: Discriminator, answered: bool, payload: Payload)

  /** `_released_question`: which question a release answers. A release without a
      discriminator answers the newest open question. */
  function ReleasedQuestion(qs: seq<GateQuestion>, disc: Discriminator): (r: Option<nat>)
    ensures r.Some? ==> r.value < |qs| && !qs[r.value].answered
    ensures r.Some? && disc != NoDisc ==> qs[r.value].disc == disc
  {
    if qs == [] then None
    else
      var n := |qs| - 1;
      if disc != NoDisc then
        if qs[n].disc == disc then (if qs[n].answered then None else Some(n))
        else ReleasedQuestion(qs[..n], disc)
      else if !qs[n].answered then Some(n)
      else ReleasedQuestion(qs[..n], disc)
  }

  /** A release with a name is about the question of that name, one without about any
      open question. */
  predicate Concerns(q: GateQuestion, disc: Discriminator) { if disc == NoDisc then !q.answered else q.disc == disc }

  /** The question it answers is the newest it concerns; it answers none exactly when there
      is no such question, or the newest one is answered already. */
  lemma {:induction false} ReleaseAnswersNewest(qs: seq<GateQuestion>, disc: Discriminator)
    ensures var r := ReleasedQuestion(qs, disc);
            && (r.Some? ==> Newest(qs, disc, r.value) && !qs[r.value].answered)
            && (r.None? <==> forall n: nat :: n < |qs| && Newest(qs, disc, n) ==> qs[n].answered)
  {
    hide Concerns, Newest;
    if qs != [] {
      var n := |qs| - 1;
      ReleaseAnswersNewest(qs[..n], disc);
      NewestLast(qs, disc);
      ReleasedLast(qs, disc);
    }
  }

  lemma NewestLast(qs: seq<GateQuestion>, disc: Discriminator)
    requires qs != []
    ensures var n := |qs| - 1;
            && (Concerns(qs[n], disc) ==> forall k: nat :: k < |qs| ==> (Newest(qs, disc, k) <==> k == n))
            && (!Concerns(qs[n], disc) ==> !Newest(qs, disc, n) && forall k: nat :: k < n ==> (Newest(qs[..n], disc, k) <==> Newest(qs, disc, k)))
  {
    hide Concerns;
    var n := |qs| - 1;
    forall k: nat | k < n ensures Newest(qs, disc, k) <==> Newest(qs[..n], disc, k) && !Concerns(qs[n], disc) {
      assert forall j :: k < j < n ==> qs[..n][j] == qs[j];
    }
  }

  lemma ReleasedLast(qs: seq<GateQuestion>, disc: Discriminator)
    requires qs != []
    ensures var n := |qs| - 1;
            ReleasedQuestion(qs, disc)
            == if Concerns(qs[n], disc) then (if qs[n].answered then None else Some(n)) else ReleasedQuestion(qs[..n], disc)
  {
  }

  predicate Newest(qs: seq<GateQuestion>, disc: Discriminator, n: nat)
    requires n < |qs|
  {
    Concerns(qs[n], disc) && forall j :: n < j < |qs| ==> !Concerns(qs[j], disc)
  }

  function GateStep(qs: seq<GateQuestion>, d: Draft): seq<GateQuestion> {
    if d.etype.AwaitingHumanAttestation? then qs + [GateQuestion(d.role, d.disc, false, d.payload)]
    else if d.etype.HumanGateCleared? then
      var i := ReleasedQuestion(qs, d.disc);
      if i.Some? then qs[i.value := qs[i.value].(answered := true)] else qs
    else qs
  }

  ghost function GateHistory(h: seq<LedgerEvent>): seq<GateQuestion> {
    if h == [] then [] else GateStep(GateHistory(h[..|h| - 1]), h[|h| - 1].draft)
  }

  lemma GateHistorySnoc(h: seq<LedgerEvent>, e: LedgerEvent)
    ensures GateHistory(h + [e]) == GateStep(GateHistory(h), e.draft)
  {
    assert (h + [e])[..|h|] == h;
  }

  /** `_gate_history` */
  method ReadGateHistory(events: seq<LedgerEvent>) returns (questions: seq<GateQuestion>)
    ensures questions == GateHistory(events)
  {
    questions := [];
    for k := 0 to |events|
      invariant questions == GateHistory(events[..k])
    {
      assert events[..k + 1][..k] == events[..k];
      if events[k].draft.etype.AwaitingHumanAttestation? {
        questions := questions + [GateQuestion(events[k].draft.role, events[k].draft.disc, false, events[k].draft.payload)];
      } else if events[k].draft.etype.HumanGateCleared? {
        var i := ReleasedQuestion(questions, events[k].draft.disc);
        if i.Some? {
          questions := questions[i.value := questions[i.value].(answered := true)];
        }
      }
    }
    assert events[..|events|] == events;
  }

  /** `_stage_question`: the question this stage asked most recently. */
  function StageQuestion(qs: seq<GateQuestion>, role: Role): (r: Option<GateQuestion>)
    ensures r.Some? <==> Asked(qs, role)
    ensures r.Some? ==> r.value in qs && r.value.role == Some(role)
  {
    if qs == [] then None
    else if qs[|qs| - 1].role == Some(role) then Some(qs[|qs| - 1])
    else
      assert qs == qs[..|qs| - 1] + [qs[|qs| - 1]];
      StageQuestion(qs[..|qs| - 1], role)
  }

  /** It is the newest question of that stage. */
  lemma {:induction false} StageQuestionIsNewest(qs: seq<GateQuestion>, role: Role) returns (n: nat)
    requires Asked(qs, role)
    ensures n < |qs| && StageQuestion(qs, role) == Some(qs[n]) && qs[n].role == Some(role)
    ensures forall j :: n < j < |qs| ==> qs[j].role != Some(role)
  {
    n := |qs| - 1;
    if qs[n].role != Some(role) {
      n := StageQuestionIsNewest(qs[..n], role);
    }
  }

  predicate Asked(qs: seq<GateQuestion>, role: Role) {
    exists i :: 0 <= i < |qs| && qs[i].role == Some(role)
  }

  /** Number of this stage's questions a human has answered. */
  function AnsweredCount(qs: seq<GateQuestion>, role: Role): nat {
    if qs == [] then 0
    else AnsweredCount(qs[..|qs| - 1], role)
         + if qs[|qs| - 1].role == Some(role) && qs[|qs| - 1].answered then 1 else 0
  }

  /** `_gate_discriminator`: the name of the question a stage is about to ask. */
  function GateDiscriminator(qs: seq<GateQuestion>, role: Role): Discriminator {
    GateDisc(role, AnsweredCount(qs, role) + 1)
  }

  /** Newest unanswered question (`next(q for q in reversed(questions) if not q.answered)`). */
  function OpenQuestion(qs: seq<GateQuestion>): (r: Option<GateQuestion>)
    ensures r.None? <==> forall i :: 0 <= i < |qs| ==> qs[i].answered
    ensures r.Some? ==> r.value in qs && !r.value.answered
  {
    if qs == [] then None
    else if !qs[|qs| - 1].answered then Some(qs[|qs| - 1])
    else
      assert qs == qs[..|qs| - 1] + [qs[|qs| - 1]];
      OpenQuestion(qs[..|qs| - 1])
  }

  lemma {:induction false} AnsweredCountUpdate(qs: seq<GateQuestion>, i: nat, role: Role)
    requires i < |qs| && !qs[i].answered
    ensures AnsweredCount(qs[i := qs[i].(answered := true)], role)
            == AnsweredCount(qs, role) + if qs[i].role == Some(role) then 1 else 0
    decreases |qs|
  {
    var n := |qs| - 1;
    var qs' := qs[i := qs[i].(answered := true)];
    if i == n {
      assert qs'[..n] == qs[..n];
    } else {
      AnsweredCountUpdate(qs[..n], i, role);
      assert qs'[..n] == qs[..n][i := qs[..n][i].(answered := true)];
    }
  }

  /** Asking again while nobody has answered mints the same name, so the ledger
      suppresses it; once the question is answered the name moves on, and no
      later question of that stage can collide with it. */
  lemma QuestionIdentity(qs: seq<GateQuestion>, role: Role, payload: Payload)
    ensures var disc := GateDiscriminator(qs, role);
            var asked := qs + [GateQuestion(Some(role), disc, false, payload)];
            && GateDiscriminator(asked, role) == disc
            && (forall other :: other != role ==> GateDiscriminator(asked, other) == GateDiscriminator(qs, other))
            && (forall i :: 0 <= i < |asked| && !asked[i].answered && asked[i].role == Some(role) ==>
                  GateDiscriminator(asked[i := asked[i].(answered := true)], role) != disc)
  {
    var disc := GateDiscriminator(qs, role);
    var asked := qs + [GateQuestion(Some(role), disc, false, payload)];
    assert asked[..|qs|] == qs;
    forall i | 0 <= i < |asked| && !asked[i].answered && asked[i].role == Some(role)
      ensures GateDiscriminator(asked[i := asked[i].(answered := true)], role) != disc
    {
      AnsweredCountUpdate(asked, i, role);
    }
  }
}
