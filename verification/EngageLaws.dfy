/** Whose outreach and enrichment a lead ends with after the engage pass, answer by answer and field by field. */
module EngageLaws {
  import opened Text
  import opened Batch

  // ---------------------------------------------------------------- the High leads

  lemma {:induction false} HighConcat(a: seq<Item>, b: seq<Item>)
    ensures HighOnly(a + b) == HighOnly(a) + HighOnly(b)
  {
    if b == [] {
      assert a + b == a;
    } else {
      var n := |b| - 1;
      HighConcat(a, b[..n]);
      assert (a + b)[..|a + b| - 1] == a + b[..n];
    }
  }

  /** A lead is engaged exactly if its priority is "high" in any case, with any blanks around it. */
  lemma HighOne(i: Item)
    ensures HighOnly([i]) == if Lower(Trim(i.priority)) == "high" then [i] else []
  {
    var none: seq<Item> := [];
    assert [i][..0] == none && HighOnly(none) == none;
  }

  // ---------------------------------------------------------------- the last one of an id counts

  predicate Names(answer: seq<Lead>, id: string) {
    exists j :: 0 <= j < |answer| && answer[j].id == id
  }

  /** The last result of the answer for the id is at j. */
  predicate LastNamed(answer: seq<Lead>, id: string, j: nat) {
    j < |answer| && answer[j].id == id && forall l | j < l < |answer| :: answer[l].id != id
  }

  /** The input of the id: the last one given, or an empty one if none was. */
  ghost predicate InputOf(items: seq<Item>, id: string, item: Item) {
    || (item == Item("", "", "", []) && forall l | 0 <= l < |items| :: items[l].id != id)
    || exists j :: 0 <= j < |items| && LastInput(items, id, j) && items[j] == item
  }

  predicate LastInput(items: seq<Item>, id: string, j: int)
    requires 0 <= j < |items|
  {
    items[j].id == id && forall l | j < l < |items| :: items[l].id != id
  }

  lemma {:induction false} AnswerNaming(answer: seq<Lead>, id: string)
    ensures id in LeadById(answer) <==> Names(answer, id)
    ensures forall j | 0 <= j < |answer| && LastNamed(answer, id, j) :: LeadById(answer)[id] == answer[j]
  {
    if answer != [] {
      var n := |answer| - 1;
      AnswerNaming(answer[..n], id);
      if answer[n].id != id {
        forall j | 0 <= j < |answer| && LastNamed(answer, id, j)
          ensures LastNamed(answer[..n], id, j) && answer[..n][j] == answer[j]
        {
        }
        if Names(answer, id) {
          var j :| 0 <= j < |answer| && answer[j].id == id;
          assert answer[..n][j].id == id;
        }
      }
    }
  }

  lemma {:induction false} InputNaming(items: seq<Item>, id: string, item: Item)
    requires InputOf(items, id, item)
    ensures item == if id in ById(items) then ById(items)[id] else NO_ITEM
  {
    if items != [] && items[|items| - 1].id != id {
      var n := |items| - 1;
      if j :| 0 <= j < |items| && LastInput(items, id, j) && items[j] == item {
        assert LastInput(items[..n], id, j) && items[..n][j] == item;
      }
      InputNaming(items[..n], id, item);
    }
  }

  // ---------------------------------------------------------------- one answer

  /** An outreach taken over from an answer: the chosen channel, a subject only for email, the rest as answered. */
  predicate Outreach(
      pick: (string, seq<string>, string) -> string, answered: Engagement, item: Item, stored: Engagement) {
    && stored.channel == pick(answered.channel, item.contactTypes, item.source)
    && (stored.channel == "email" ==> stored.subject == answered.subject)
    && (stored.channel != "email" ==> stored.subject == "")
    && stored.pilotSignals == answered.pilotSignals && stored.pilotQualified == answered.pilotQualified
    && stored.pilotWhy == answered.pilotWhy && stored.angle == answered.angle && stored.draft == answered.draft
  }

  predicate Enriches(l: Lead) {
    l.enrichment.companyType != "" || l.enrichment.summary != ""
  }

  /** What one answer makes of a result it names at j. */
  predicate Merged(
      pick: (string, seq<string>, string) -> string, before: Lead, answered: Lead, item: Item, after: Lead) {
    && SameVerdict(after, before) && Outreach(pick, answered.engagement, item, after.engagement)
    && after.enrichment == if Enriches(answered) then answered.enrichment else before.enrichment
  }

  lemma OneAnswer(
      pick: (string, seq<string>, string) -> string, r: Lead, answer: seq<Lead>, items: seq<Item>, item: Item)
    requires InputOf(items, r.id, item)
    ensures var r' := Engaged(pick, r, LeadById(answer), ById(items));
            && (!Names(answer, r.id) ==> r' == r)
            && forall j | 0 <= j < |answer| && LastNamed(answer, r.id, j) :: Merged(pick, r, answer[j], item, r')
  {
    AnswerNaming(answer, r.id);
    InputNaming(items, r.id, item);
  }

  // ---------------------------------------------------------------- all answers

  /** The last result for the lead is at j of the answer at k. */
  predicate LastOf(answers: seq<seq<Lead>>, id: string, k: nat, j: nat) {
    && k < |answers| && LastNamed(answers[k], id, j)
    && forall l | k < l < |answers| :: !Names(answers[l], id)
  }

  /** The outreach is that of the last answer that names the lead. */
  lemma {:induction false} LastAnswerDecides(
      pick: (string, seq<string>, string) -> string, r: Lead, answers: seq<seq<Lead>>, items: seq<Item>, item: Item,
      k: nat, j: nat)
    requires LastOf(answers, r.id, k, j) && InputOf(items, r.id, item)
    ensures Outreach(pick, answers[k][j].engagement, item, EngagedBy(pick, r, answers, ById(items)).engagement)
  {
    var n := |answers| - 1;
    var before := EngagedBy(pick, r, answers[..n], ById(items));
    EngageKeepsVerdict(pick, r, answers[..n], ById(items));
    OneAnswer(pick, before, answers[n], items, item);
    if k < n {
      LastAnswerDecides(pick, r, answers[..n], items, item, k, j);
    }
  }

  /** The answer brings an enrichment for the lead. */
  predicate Brings(answer: seq<Lead>, id: string) {
    exists j :: 0 <= j < |answer| && LastNamed(answer, id, j) && Enriches(answer[j])
  }

  lemma {:induction false} LastExists(answer: seq<Lead>, id: string)
    requires Names(answer, id)
    ensures exists j :: 0 <= j < |answer| && LastNamed(answer, id, j)
  {
    var n := |answer| - 1;
    if answer[n].id == id {
      assert LastNamed(answer, id, n);
    } else {
      var i :| 0 <= i < |answer| && answer[i].id == id;
      assert answer[..n][i].id == id;
      LastExists(answer[..n], id);
      var j :| 0 <= j < n && LastNamed(answer[..n], id, j);
      assert LastNamed(answer, id, j);
    }
  }

  /** An answer that brings no enrichment leaves the stored one. */
  lemma NothingBrought(
      pick: (string, seq<string>, string) -> string, r: Lead, answer: seq<Lead>, items: seq<Item>, item: Item)
    requires InputOf(items, r.id, item) && !Brings(answer, r.id)
    ensures Engaged(pick, r, LeadById(answer), ById(items)).enrichment == r.enrichment
  {
    OneAnswer(pick, r, answer, items, item);
    if Names(answer, r.id) {
      LastExists(answer, r.id);
      var j :| 0 <= j < |answer| && LastNamed(answer, r.id, j);
      assert !Enriches(answer[j]);
    }
  }

  /** The enrichment is that of the last answer that brings one, or the core pass's if none does. */
  lemma {:induction false} LastEnrichmentStays(
      pick: (string, seq<string>, string) -> string, r: Lead, answers: seq<seq<Lead>>, items: seq<Item>, item: Item,
      k: nat, j: nat)
    requires InputOf(items, r.id, item)
    requires k < |answers| ==> LastNamed(answers[k], r.id, j) && Enriches(answers[k][j])
    requires forall l | 0 <= l < |answers| && (k < l || k >= |answers|) :: !Brings(answers[l], r.id)
    ensures EngagedBy(pick, r, answers, ById(items)).enrichment ==
            if k < |answers| then answers[k][j].enrichment else r.enrichment
  {
    if answers != [] {
      var n := |answers| - 1;
      var before := EngagedBy(pick, r, answers[..n], ById(items));
      EngageKeepsVerdict(pick, r, answers[..n], ById(items));
      if k == n {
        OneAnswer(pick, before, answers[n], items, item);
      } else {
        NothingBrought(pick, before, answers[n], items, item);
        LastEnrichmentStays(pick, r, answers[..n], items, item, k, j);
      }
    }
  }

  /** A lead no answer names leaves the engage pass as the core pass made it. */
  lemma {:induction false} UnnamedStays(
      pick: (string, seq<string>, string) -> string, r: Lead, answers: seq<seq<Lead>>, items: map<string, Item>)
    requires forall k | 0 <= k < |answers| :: !Names(answers[k], r.id)
    ensures EngagedBy(pick, r, answers, items) == r
  {
    if answers != [] {
      UnnamedStays(pick, r, answers[..|answers| - 1], items);
      AnswerNaming(answers[|answers| - 1], r.id);
    }
  }
}
