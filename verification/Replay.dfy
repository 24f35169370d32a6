/** The document a sequence of recordings builds from nothing. */
module Replaying {
  import opened Text
  import opened Lists
  import opened Entity
  import opened Timeline
  import opened HeatScore
  import opened Merging
  import opened Folding

  /** One insert followed by merges, each at the instant its call read. */
  function Replay(sig: Signals, id: string, primary: Key, cfg: Config, os: seq<Obs>): Doc
    requires os != []
  {
    var o := os[|os| - 1];
    if |os| == 1 then NewDoc(sig, id, primary, o, cfg, o.clock.atMerge)
    else Merge(sig, Replay(sig, id, primary, cfg, os[..|os| - 1]), o, cfg, o.clock.atMerge)
  }

  /** The document before its first sighting. */
  function Origin(id: string, primary: Key): Doc {
    Doc(id, primary, [], [], [], [], [], [], 0, 0, 0, 0, 0, false, "", NO_HEAT, NO_REVIEW, -1, [])
  }

  /** What the recordings of a document leave in it: every hash, counted once, and one generation per merge. */
  ghost predicate Linked(d: Doc, id: string, os: seq<Obs>) {
    && Shape(d) && d.id == id && d.generation == |os| - 1
    && Elems(d.hashes) == Image(HashOf, SetOf(os)) && d.sightings == |d.hashes|
  }

  lemma LinkedStep(sig: Signals, d: Doc, id: string, before: seq<Obs>, o: Obs, cfg: Config, now: Time)
    requires Linked(d, id, before) && Trim(o.hash) != ""
    ensures Linked(Merge(sig, d, o, cfg, now), id, before + [o])
  {
    MergeAdvances(sig, d, o, cfg, now);
    MergeCounts(sig, d, o, cfg, now);
    LinkedMore(d, Merge(sig, d, o, cfg, now), id, before, o);
  }

  lemma LinkedMore(d: Doc, d': Doc, id: string, before: seq<Obs>, o: Obs)
    requires Linked(d, id, before) && Shape(d') && d'.id == d.id && d'.generation == d.generation + 1
    requires Elems(d'.hashes) == Elems(d.hashes) + {HashOf(o)} && d'.sightings == |d'.hashes|
    ensures Linked(d', id, before + [o])
  {
    assert SetOf(before + [o]) == SetOf(before) + {o};
    AddImage(HashOf, SetOf(before), o);
  }

  /** Shape and the sighting count survive any merge of a non-blank hash. */
  lemma MergeCounts(sig: Signals, d: Doc, o: Obs, cfg: Config, now: Time)
    requires Shape(d) && Trim(o.hash) != "" && d.sightings == |d.hashes|
    ensures Shape(Merge(sig, d, o, cfg, now))
    ensures Merge(sig, d, o, cfg, now).sightings == |Merge(sig, d, o, cfg, now).hashes|
  {
    if HashKnown(d, Trim(o.hash)) {
      var d1 := Observe(d.(generation := d.generation + 1), o);
      RecordMeaning(d.rows, o);
      RecomputeFrame(d1, DEFAULT, o.clock.atHeat, o.clock.atHeat);
    } else {
      var d1 := Absorb(sig, d, o);
      AbsorbShape(sig, d, o);
      AbsorbLists(sig, d, o);
      NoDupSize(d.hashes);
      NoDupSize(d1.hashes);
      RecomputeFrame(d1, cfg, now, o.clock.atHeat);
    }
  }

  lemma LinkedFirst(sig: Signals, id: string, primary: Key, o: Obs, cfg: Config)
    requires Trim(o.hash) != ""
    ensures Linked(NewDoc(sig, id, primary, o, cfg, o.clock.atMerge), id, [o])
  {
    var d := NewDoc(sig, id, primary, o, cfg, o.clock.atMerge);
    NewDocHashes(sig, id, primary, o, cfg);
    NewDocShape(sig, id, primary, o, cfg);
    LinkedOne(d, id, o);
  }

  lemma LinkedOne(d: Doc, id: string, o: Obs)
    requires Shape(d) && d.id == id && d.generation == 0 && Elems(d.hashes) == {HashOf(o)} && d.sightings == |d.hashes|
    ensures Linked(d, id, [o])
  {
    assert SetOf([o]) == {o};
    assert Image(HashOf, {o}) == {HashOf(o)};
  }

  lemma NewDocShape(sig: Signals, id: string, primary: Key, o: Obs, cfg: Config)
    requires Trim(o.hash) != ""
    ensures var d := NewDoc(sig, id, primary, o, cfg, o.clock.atMerge);
            Shape(d) && d.sightings == |d.hashes| && d.rows == [BuildRow(o)]
  {
    UniqOne(Trim(o.hash));
    UniqMeaning([Trim(o.source)]);
    UniqMeaning([SourceFamily(o.source)]);
    UniqMeaning(o.matched);
    UniqMeaning(o.stack);
    assert [] + [BuildRow(o)] == [BuildRow(o)];
    assert Record([], o) == [BuildRow(o)];
  }

  /** Every replay holds every hash of its recordings, counts each once, and numbers its merges. */
  lemma {:induction false} ReplayLinked(sig: Signals, id: string, primary: Key, cfg: Config, os: seq<Obs>)
    requires os != [] && forall o | o in os :: Trim(o.hash) != ""
    ensures Linked(Replay(sig, id, primary, cfg, os), id, os)
  {
    var n := |os| - 1;
    var before, o := os[..n], os[n];
    assert o in os && os == before + [o];
    if n == 0 {
      assert os == [o];
      LinkedFirst(sig, id, primary, o, cfg);
    } else {
      ReplayLinked(sig, id, primary, cfg, before);
      LinkedStep(sig, Replay(sig, id, primary, cfg, before), id, before, o, cfg, o.clock.atMerge);
    }
  }

  /** Every replay of recordable observations satisfies the document invariant. */
  lemma {:induction false} ReplayInv(sig: Signals, id: string, primary: Key, cfg: Config, os: seq<Obs>)
    requires os != [] && forall o | o in os :: Recordable(o)
    ensures DocInv(Replay(sig, id, primary, cfg, os))
  {
    var n := |os| - 1;
    var before, o := os[..n], os[n];
    assert o in os && os == before + [o];
    if n == 0 {
      NewDocInv(sig, id, primary, o, cfg, o.clock.atMerge);
    } else {
      ReplayInv(sig, id, primary, cfg, before);
      MergeInv(sig, Replay(sig, id, primary, cfg, before), o, cfg, o.clock.atMerge);
    }
  }

  lemma NewDocHashes(sig: Signals, id: string, primary: Key, o: Obs, cfg: Config)
    requires Trim(o.hash) != ""
    ensures var d := NewDoc(sig, id, primary, o, cfg, o.clock.atMerge);
            d.id == id && d.generation == 0 && Elems(d.hashes) == {HashOf(o)}
  {
    UniqOne(Trim(o.hash));
    assert Elems([Trim(o.hash)]) == {Trim(o.hash)};
  }

  /** A new document is the fold of its one sighting onto nothing. */
  lemma NewDocSums(sig: Signals, id: string, primary: Key, o: Obs, cfg: Config, now: Time)
    requires Recordable(o)
    ensures Sums(sig, Origin(id, primary), {o}, NewDoc(sig, id, primary, o, cfg, now))
  {
    var e, d := Origin(id, primary), NewDoc(sig, id, primary, o, cfg, now);
    NewDocInv(sig, id, primary, o, cfg, now);
    NewDocLabels(sig, id, primary, o, cfg, now);
    NewDocCounts(sig, id, primary, o, cfg, now);
    FirstSums(sig, e, o, d);
  }

  lemma FirstSums(sig: Signals, e: Doc, o: Obs, d: Doc)
    requires e.rows == [] && e.first == e.last == 0 && Trim(o.hash) != "" && EventOf(o) != 0
    requires Shape(d) && LabelSums(e, {o}, d) && CountSums(sig, e, {o}, d)
    requires d.rows == Record([], o) && d.first == Earlier(0, EventOf(o)) && d.last == Later(0, EventOf(o))
    ensures Sums(sig, e, {o}, d)
  {
    assert {} + {o} == {o};
    BoundStep(e, {}, e, o);
    FirstRows(o);
  }

  lemma FirstRows(o: Obs)
    requires Trim(o.hash) != ""
    ensures TopRows([], {o}, Record([], o))
  {
    assert Ranks([]) == {} && Image(BuiltRank, {}) == {};
    assert {} + {o} == {o};
    RowsStep([], {}, [], o);
  }

  lemma NewDocCounts(sig: Signals, id: string, primary: Key, o: Obs, cfg: Config, now: Time)
    requires Recordable(o)
    ensures var e, d := Origin(id, primary), NewDoc(sig, id, primary, o, cfg, now);
            && CountSums(sig, e, {o}, d) && d.rows == Record([], o)
            && d.first == Earlier(0, EventOf(o)) && d.last == Later(0, EventOf(o))
  {
    var e, d := Origin(id, primary), NewDoc(sig, id, primary, o, cfg, now);
    NewDocInv(sig, id, primary, o, cfg, now);
    NoDupSize(d.families);
    assert PainfulOf(sig, {}) == {} && BuyersOf(sig, {}) == {};
    CountStep(sig, e, {}, e, o, d);
    assert {} + {o} == {o};
  }

  lemma NewDocLabels(sig: Signals, id: string, primary: Key, o: Obs, cfg: Config, now: Time)
    ensures Trim(o.hash) != "" ==> LabelSums(Origin(id, primary), {o}, NewDoc(sig, id, primary, o, cfg, now))
  {
    var seed := Seed(sig, id, primary, o);
    RecomputeFrame(Observe(seed, o), cfg, now, o.clock.atHeat);
    SeedLabels(sig, id, primary, o);
    SeedGathers(o);
    assert Elems([]) == {} && Labels([]) == {};
  }

  lemma SeedLabels(sig: Signals, id: string, primary: Key, o: Obs)
    ensures var d := Seed(sig, id, primary, o);
            && Elems(d.hashes) == {HashOf(o)} - {""} && Labels(d.aliases) == AliasLabels(o)
            && Elems(d.sources) == SourceLabel(o) && Elems(d.families) == FamilyLabel(o)
            && Elems(d.matched) == MatchedLabels(o) && Elems(d.stack) == StackLabels(o)
  {
    UniqMeaning([Trim(o.hash)]);
    UniqMeaning([Trim(o.source)]);
    UniqMeaning([SourceFamily(o.source)]);
    UniqMeaning(o.matched);
    UniqMeaning(o.stack);
    LabelsOne(Trim(o.hash));
    LabelsOne(Trim(o.source));
    LabelsOne(SourceFamily(o.source));
  }

  lemma SeedGathers(o: Obs)
    ensures Image(HashOf, {o}) == {HashOf(o)}
    ensures Gather(AliasLabels, {o}) == AliasLabels(o) && Gather(SourceLabel, {o}) == SourceLabel(o)
    ensures Gather(FamilyLabel, {o}) == FamilyLabel(o) && Gather(MatchedLabels, {o}) == MatchedLabels(o)
    ensures Gather(StackLabels, {o}) == StackLabels(o)
  {
    GatherOne(AliasLabels, o);
    GatherOne(SourceLabel, o);
    GatherOne(FamilyLabel, o);
    GatherOne(MatchedLabels, o);
    GatherOne(StackLabels, o);
  }

  lemma GatherOne(f: Obs -> set<string>, o: Obs)
    ensures Gather(f, {o}) == f(o)
  {
  }

  /** Distinct recordable sightings. */
  predicate DistinctSightings(os: seq<Obs>) {
    && (forall i, j :: 0 <= i < j < |os| ==> HashOf(os[i]) != HashOf(os[j]))
    && forall o | o in os :: Recordable(o)
  }

  lemma ReplayStep(sig: Signals, e: Doc, os: seq<Obs>, r: Doc, cfg: Config)
    requires os != [] && DistinctSightings(os) && e.hashes == [] && Sums(sig, e, SetOf(os[..|os| - 1]), r)
    ensures var o := os[|os| - 1]; Sums(sig, e, SetOf(os), Merge(sig, r, o, cfg, o.clock.atMerge))
  {
    var before, o := os[..|os| - 1], os[|os| - 1];
    assert Unseen(e, os);
    UnseenLast(e, os, r);
    SumsStep(sig, e, SetOf(before), r, o, cfg, o.clock.atMerge);
  }

  /** A replay without repeats is the unordered sum of its sightings. */
  lemma {:induction false} ReplaySums(sig: Signals, id: string, primary: Key, cfg: Config, os: seq<Obs>)
    requires os != [] && DistinctSightings(os)
    ensures Sums(sig, Origin(id, primary), SetOf(os), Replay(sig, id, primary, cfg, os))
  {
    var n := |os| - 1;
    var o := os[n];
    assert o in os;
    if n == 0 {
      assert SetOf(os) == {o};
      NewDocSums(sig, id, primary, o, cfg, o.clock.atMerge);
    } else {
      var before := os[..n];
      ReplaySums(sig, id, primary, cfg, before);
      ReplayStep(sig, Origin(id, primary), os, Replay(sig, id, primary, cfg, before), cfg);
    }
  }
}
