/** Folding observations into an entity document, and what every fold keeps. */
module Merging {
  import opened Text
  import opened Lists
  import opened Entity
  import opened Timeline
  import opened HeatScore

  /** sighting.go's updateEntitySeenBounds */
  function Earlier(first: Time, e: Time): Time {
    if first == 0 || e < first then e else first
  }

  function Later(last: Time, e: Time): Time {
    if e > last then e else last
  }

  /** The timeline row and the seen bounds, common to all three recording paths. */
  function Observe(d: Doc, o: Obs): Doc {
    d.(rows := Record(d.rows, o), first := Earlier(d.first, EventOf(o)), last := Later(d.last, EventOf(o)))
  }

  /** The fields a first sighting fills in before its timeline row. */
  function Seed(sig: Signals, id: string, primary: Key, o: Obs): Doc {
    Doc(id, primary, AliasTokens(o.keys), Uniq([Trim(o.hash)]), Uniq([Trim(o.source)]),
        Uniq([SourceFamily(o.source)]), Uniq(o.matched), Uniq(o.stack), 0, 0, 1, 1,
        if HasPain(sig, o.text, o.matched) then 1 else 0, sig.buyer(o.stack, o.text), Trim(o.hash),
        NO_HEAT, NO_REVIEW, 0, [])
  }

  /** merge.go's NewDocWithHeat */
  function NewDoc(sig: Signals, id: string, primary: Key, o: Obs, cfg: Config, now: Time): Doc {
    Recompute(Observe(Seed(sig, id, primary, o), o), cfg, now, o.clock.atHeat)
  }

  predicate HashKnown(d: Doc, h: string) {
    h != "" && h in d.hashes
  }

  /** A duplicate hash: the default heat configuration and the call's own clock, whatever the caller passed. */
  function Refresh(d: Doc, o: Obs): Doc {
    Recompute(Observe(d.(generation := d.generation + 1), o), DEFAULT, o.clock.atHeat, o.clock.atHeat)
  }

  predicate NewFamily(families: seq<string>, o: Obs) {
    SourceFamily(o.source) != "" && SourceFamily(o.source) !in families
  }

  function GrownFamilies(families: seq<string>, o: Obs): seq<string> {
    if NewFamily(families, o) then Union(families, [SourceFamily(o.source)]) else families
  }

  function GrowIdentity(d: Doc, o: Obs): Doc {
    d.(aliases := Union(d.aliases, AliasTokens(o.keys)), hashes := Union(d.hashes, [Trim(o.hash)]))
  }

  function GrowContent(d: Doc, o: Obs): Doc {
    d.(sources := Union(d.sources, [Trim(o.source)]),
       matched := Union(d.matched, o.matched),
       stack := Union(d.stack, o.stack))
  }

  function GrowFamily(d: Doc, o: Obs): Doc {
    d.(families := GrownFamilies(d.families, o), sourceCount := |GrownFamilies(d.families, o)|)
  }

  /** Pain, buyer role and canonical hash: the first buyer sighting claims the canonical hash. */
  function Flag(sig: Signals, d: Doc, o: Obs): Doc {
    var buyer := sig.buyer(o.stack, o.text);
    d.(painHits := d.painHits + if HasPain(sig, o.text, o.matched) then 1 else 0,
       buyerSeen := d.buyerSeen || buyer,
       canonical := if d.canonical == "" || (buyer && !d.buyerSeen) then Trim(o.hash) else d.canonical)
  }

  function Count(d: Doc): Doc {
    d.(sightings := d.sightings + 1, generation := d.generation + 1)
  }

  /** The counters, lists and flags of a new hash. */
  function Grow(sig: Signals, d: Doc, o: Obs): Doc {
    Flag(sig, GrowFamily(GrowContent(GrowIdentity(Count(d), o), o), o), o)
  }

  /** The new-hash path up to the heat recomputation. */
  function Absorb(sig: Signals, d: Doc, o: Obs): Doc {
    Observe(Grow(sig, d, o), o)
  }

  /** merge.go's MergeSightingWithHeat */
  function Merge(sig: Signals, d: Doc, o: Obs, cfg: Config, now: Time): Doc {
    if HashKnown(d, Trim(o.hash)) then Refresh(d, o)
    else Recompute(Absorb(sig, d, o), cfg, now, o.clock.atHeat)
  }

  // ---------------------------------------------------------------- the document invariant

  /** Stored lists are trimmed and free of duplicates; rows are distinct, capped and drawn from the hashes. */
  predicate Shape(d: Doc) {
    && Normal(d.hashes) && Normal(d.sources) && Normal(d.families) && Normal(d.matched) && Normal(d.stack)
    && DistinctHashes(d.rows) && |d.rows| <= MAX_SIGHTINGS
    && forall r | r in d.rows :: r.hash in d.hashes
  }

  /** The redundant counters agree with the lists they count. */
  predicate Counted(d: Doc) {
    && d.sightings == |d.hashes| && d.sourceCount == |d.families| && 0 <= d.painHits <= d.sightings
    && |d.rows| == (if |d.hashes| <= MAX_SIGHTINGS then |d.hashes| else MAX_SIGHTINGS)
    && d.canonical in d.hashes
  }

  predicate Bounded(d: Doc) {
    d.first != 0 && d.first <= d.last && forall r | r in d.rows :: d.first <= Event(r) <= d.last
  }

  predicate DocInv(d: Doc) {
    Shape(d) && Counted(d) && Bounded(d)
  }

  /** What recording does to the rows: at most one row is touched, none other changes or appears. */
  lemma RecordMeaning(rows: seq<Row>, o: Obs)
    requires DistinctHashes(rows) && |rows| <= MAX_SIGHTINGS && Trim(o.hash) != ""
    ensures var rows', h := Record(rows, o), Trim(o.hash);
            && DistinctHashes(rows')
            && (h in Hashes(rows) ==> |rows'| == |rows|)
            && (h !in Hashes(rows) ==> |rows'| == if |rows| < MAX_SIGHTINGS then |rows| + 1 else MAX_SIGHTINGS)
            && (forall r | r in rows' ::
                  r in rows || r == BuildRow(o) || exists q | q in rows :: q.hash == h && r == RefreshRow(q, o))
  {
    var h := Trim(o.hash);
    var i := IndexOfHash(rows, h);
    if i < |rows| {
      var rows' := rows[i := RefreshRow(rows[i], o)];
      assert rows[i] in rows && h in Hashes(rows);
      forall r | r in rows'
        ensures r in rows || (rows[i].hash == h && r == RefreshRow(rows[i], o))
      {
        var j :| 0 <= j < |rows'| && rows'[j] == r;
        assert j != i ==> rows[j] == r;
      }
    } else {
      assert h !in Hashes(rows);
      var all := rows + [BuildRow(o)];
      assert BuildRow(o).hash == h;
      TrimKeepsTop(all);
    }
  }

  lemma RowEvent(q: Row, o: Obs)
    requires Stamped(o)
    ensures Event(BuildRow(o)) == EventOf(o)
    ensures Event(RefreshRow(q, o)) == EventOf(o) || Event(RefreshRow(q, o)) == Event(q)
  {
  }

  lemma ObserveBounded(d: Doc, o: Obs)
    requires DistinctHashes(d.rows) && |d.rows| <= MAX_SIGHTINGS && Trim(o.hash) != "" && Stamped(o)
    requires (d.rows == [] && d.first == d.last == 0) || Bounded(d)
    ensures Bounded(Observe(d, o))
  {
    RecordMeaning(d.rows, o);
    var d' := Observe(d, o);
    forall r | r in d'.rows
      ensures d'.first <= Event(r) <= d'.last
    {
      if r !in d.rows {
        if r == BuildRow(o) {
          RowEvent(r, o);
        } else {
          var q :| q in d.rows && q.hash == Trim(o.hash) && r == RefreshRow(q, o);
          RowEvent(q, o);
        }
      }
    }
  }

  /** Rows after an observation still come from the hashes, and fill the timeline as far as the hashes go. */
  lemma ObserveRows(d: Doc, o: Obs, known: seq<string>)
    requires Normal(d.hashes) && DistinctHashes(d.rows) && (forall r | r in d.rows :: r.hash in known)
    requires Trim(o.hash) != "" && Normal(known) && Elems(d.hashes) == Elems(known) + {Trim(o.hash)}
    requires |d.rows| == (if |known| <= MAX_SIGHTINGS then |known| else MAX_SIGHTINGS)
    ensures var rows' := Record(d.rows, o);
            && DistinctHashes(rows') && (forall r | r in rows' :: r.hash in d.hashes)
            && |rows'| == (if |d.hashes| <= MAX_SIGHTINGS then |d.hashes| else MAX_SIGHTINGS)
  {
    RecordMeaning(d.rows, o);
    NoDupSize(known);
    NoDupSize(d.hashes);
    DistinctSize(d.rows);
    assert forall x | x in known :: x in Elems(d.hashes);
    assert Trim(o.hash) in Elems(d.hashes);
    assert Hashes(d.rows) <= Elems(known);
    FillsUp(Hashes(d.rows), Elems(known), Trim(o.hash));
  }

  /** One more hash makes a row exactly if it makes the hashes more, or the rows were full. */
  lemma FillsUp(rows: set<string>, known: set<string>, h: string)
    requires rows <= known && |rows| == if |known| <= MAX_SIGHTINGS then |known| else MAX_SIGHTINGS
    ensures var after := if h in rows || |rows| == MAX_SIGHTINGS then |rows| else |rows| + 1;
            after == if |known + {h}| <= MAX_SIGHTINGS then |known + {h}| else MAX_SIGHTINGS
  {
    if h in known {
      assert known + {h} == known;
      if h !in rows {
        SubsetSize(rows + {h}, known);
      }
    } else {
      assert |known + {h}| == |known| + 1;
    }
  }

  /** Recomputing heat changes heat and canonical only, and points canonical at a stored row or leaves it. */
  lemma RecomputeFrame(d: Doc, cfg: Config, now: Time, reading: Time)
    ensures var d' := Recompute(d, cfg, now, reading);
            && d' == d.(heat := d'.heat, canonical := d'.canonical)
            && (d'.canonical == d.canonical || exists r | r in d.rows :: r.hash == d'.canonical)
  {
    NormalizeIsPositive(cfg);
    BestIsHeaviest(d.rows, Normalize(cfg), if now == 0 then reading else now);
  }

  lemma RecomputeInv(d: Doc, cfg: Config, now: Time, reading: Time)
    requires DocInv(d)
    ensures DocInv(Recompute(d, cfg, now, reading))
  {
    RecomputeFrame(d, cfg, now, reading);
  }

  /** The first sighting gives a document that satisfies the invariant. */
  lemma NewDocInv(sig: Signals, id: string, primary: Key, o: Obs, cfg: Config, now: Time)
    requires Recordable(o)
    ensures DocInv(NewDoc(sig, id, primary, o, cfg, now))
  {
    var h, f := Trim(o.hash), SourceFamily(o.source);
    FamilyVisible(o.source);
    UniqOne(h);
    UniqOne(f);
    UniqMeaning([Trim(o.source)]);
    UniqMeaning(o.matched);
    UniqMeaning(o.stack);
    var d := Seed(sig, id, primary, o);
    ObserveRows(d, o, []);
    ObserveBounded(d, o);
    RecomputeInv(Observe(d, o), cfg, now, o.clock.atHeat);
  }

  lemma UniqOne(x: string)
    ensures Uniq([x]) == if Blank(x) then [] else [Trim(x)]
    ensures Normal(Uniq([x]))
  {
    UniqMeaning([x]);
    var none: seq<string> := [];
    assert [x][1..] == none && [Trim(x)] + none == [Trim(x)];
    assert Scan(Same, {}, none) == Scan(Same, {} + {Trim(x)}, none) == none;
  }

  lemma RefreshInv(d: Doc, o: Obs)
    requires DocInv(d) && HashKnown(d, Trim(o.hash)) && Stamped(o)
    ensures DocInv(Refresh(d, o))
  {
    var d1 := d.(generation := d.generation + 1);
    assert Elems(d.hashes) == Elems(d.hashes) + {Trim(o.hash)};
    ObserveRows(d1, o, d.hashes);
    ObserveBounded(d1, o);
    RecomputeInv(Observe(d1, o), DEFAULT, o.clock.atHeat, o.clock.atHeat);
  }

  lemma GrownFamiliesMeaning(families: seq<string>, o: Obs)
    requires Normal(families)
    ensures Normal(GrownFamilies(families, o))
    ensures Elems(GrownFamilies(families, o)) == Elems(families) + ({Trim(SourceFamily(o.source))} - {""})
  {
    var f := SourceFamily(o.source);
    UnionMeaning(families, [f]);
    LabelsOne(f);
    if f != "" && !NewFamily(families, o) {
      assert f in Elems(families) && Trim(f) == f;
    }
  }

  /** The list fields after absorbing a new hash. */
  lemma AbsorbLists(sig: Signals, d: Doc, o: Obs)
    requires Shape(d)
    ensures var d' := Absorb(sig, d, o);
            && Normal(d'.hashes) && Normal(d'.sources) && Normal(d'.families) && Normal(d'.matched) && Normal(d'.stack)
            && Elems(d'.hashes) == Elems(d.hashes) + ({Trim(o.hash)} - {""})
            && Elems(d'.sources) == Elems(d.sources) + ({Trim(o.source)} - {""})
            && Elems(d'.families) == Elems(d.families) + ({Trim(SourceFamily(o.source))} - {""})
            && Elems(d'.matched) == Elems(d.matched) + Labels(o.matched)
            && Elems(d'.stack) == Elems(d.stack) + Labels(o.stack)
  {
    UnionMeaning(d.hashes, [Trim(o.hash)]);
    UnionMeaning(d.sources, [Trim(o.source)]);
    GrownFamiliesMeaning(d.families, o);
    UnionMeaning(d.matched, o.matched);
    UnionMeaning(d.stack, o.stack);
    LabelsOne(Trim(o.hash));
    LabelsOne(Trim(o.source));
  }

  lemma AbsorbInv(sig: Signals, d: Doc, o: Obs)
    requires DocInv(d) && Trim(o.hash) != "" && !HashKnown(d, Trim(o.hash)) && Stamped(o)
    ensures DocInv(Absorb(sig, d, o))
  {
    var d' := Absorb(sig, d, o);
    AbsorbLists(sig, d, o);
    ObserveRows(d.(hashes := d'.hashes), o, d.hashes);
    ObserveBounded(d, o);
    NoDupSize(d.hashes);
    NoDupSize(d'.hashes);
    assert |Elems(d'.hashes)| == |Elems(d.hashes)| + 1;
    assert d.canonical in Elems(d'.hashes) && Trim(o.hash) in Elems(d'.hashes);
  }

  /** Every merge, of a new or of a known hash, keeps the document invariant. */
  lemma MergeInv(sig: Signals, d: Doc, o: Obs, cfg: Config, now: Time)
    requires DocInv(d) && Trim(o.hash) != "" && Stamped(o)
    ensures DocInv(Merge(sig, d, o, cfg, now))
  {
    if HashKnown(d, Trim(o.hash)) {
      RefreshInv(d, o);
    } else {
      AbsorbInv(sig, d, o);
      RecomputeInv(Absorb(sig, d, o), cfg, now, o.clock.atHeat);
    }
  }

  /** Each merge adds the hash, forgets none and advances the generation by one. */
  lemma MergeAdvances(sig: Signals, d: Doc, o: Obs, cfg: Config, now: Time)
    requires Shape(d)
    ensures var d' := Merge(sig, d, o, cfg, now);
            && d'.id == d.id && d'.generation == d.generation + 1
            && Elems(d'.hashes) == Elems(d.hashes) + ({Trim(o.hash)} - {""})
  {
    if HashKnown(d, Trim(o.hash)) {
      RecomputeFrame(Observe(d.(generation := d.generation + 1), o), DEFAULT, o.clock.atHeat, o.clock.atHeat);
      assert Elems(d.hashes) == Elems(d.hashes) + {Trim(o.hash)};
    } else {
      AbsorbLists(sig, d, o);
      RecomputeFrame(Absorb(sig, d, o), cfg, now, o.clock.atHeat);
    }
  }

  // ---------------------------------------------------------------- heat of a merge

  /** Recomputing promotes a heaviest row of the canonical window whenever the window holds one. */
  lemma CanonicalIsHeaviest(d: Doc, cfg: Config, now: Time, reading: Time)
    requires cfg.enabled && now != 0 && forall r | r in d.rows :: r.hash != ""
    ensures var c, d' := Normalize(cfg), Recompute(d, cfg, now, reading);
            (exists r | r in d.rows :: Within(r, now, c.canonicalWindow)) ==>
              exists r | r in d.rows ::
                && r.hash == d'.canonical && Within(r, now, c.canonicalWindow)
                && forall q | q in d.rows && Within(q, now, c.canonicalWindow) :: Weight(q, c, now) <= Weight(r, c, now)
  {
    var c := Normalize(cfg);
    NormalizeIsPositive(cfg);
    BestIsHeaviest(d.rows, c, now);
    var (h, w) := Best(d.rows, c, now);
    if q :| q in d.rows && Within(q, now, c.canonicalWindow) {
      WeightNonNegative(q, c, now);
      assert w != -1.0;
      var r :| r in d.rows && Within(r, now, c.canonicalWindow) && r.hash == h && Weight(r, c, now) == w;
      assert r.hash == Recompute(d, cfg, now, reading).canonical;
    }
  }

  /** At one instant, a new hash joining a timeline with room never lowers the score or the tier. */
  lemma MergeOnlyHeats(sig: Signals, d: Doc, o: Obs, cfg: Config, now: Time)
    requires DocInv(d) && |d.rows| < MAX_SIGHTINGS && Trim(o.hash) != "" && !HashKnown(d, Trim(o.hash))
    requires cfg.enabled && now != 0
    ensures var before, after := HeatOf(d.rows, d.sourceCount, d.painHits, Normalize(cfg), now),
                                 Merge(sig, d, o, cfg, now).heat;
            before.score <= after.score && TierRank(before.tier) <= TierRank(after.tier)
  {
    var d' := Absorb(sig, d, o);
    NormalizeIsPositive(cfg);
    assert IndexOfHash(d.rows, Trim(o.hash)) == |d.rows|;
    assert d'.rows == d.rows + [BuildRow(o)];
    AbsorbLists(sig, d, o);
    NoDupSize(d.families);
    NoDupSize(d'.families);
    SubsetSize(Elems(d.families), Elems(d'.families));
    RowOnlyHeats(d.rows, BuildRow(o), d.sourceCount, d'.sourceCount, d.painHits, d'.painHits, Normalize(cfg), now);
  }

  // ---------------------------------------------------------------- where the promises stop

  /** A first sighting counts one source even if its source is blank: then no family is stored. */
  lemma NewDocSourceCount(sig: Signals, id: string, primary: Key, o: Obs, cfg: Config, now: Time)
    ensures var d := NewDoc(sig, id, primary, o, cfg, now);
            d.sourceCount == |d.families| <==> !Blank(o.source)
  {
    FamilyVisible(o.source);
    UniqOne(SourceFamily(o.source));
  }

  /**
   * The row of a first sighting lies within the document's seen bounds exactly when the row and
   * the bounds took their instant from the same place: an undated, unstamped sighting reads the
   * clock twice, and the later reading becomes first_seen.
   */
  lemma NewDocRowInBounds(sig: Signals, id: string, primary: Key, o: Obs, cfg: Config, now: Time)
    requires Trim(o.hash) != "" && EventOf(o) > 0
    ensures var d := NewDoc(sig, id, primary, o, cfg, now);
            && d.rows == [BuildRow(o)]
            && (d.first <= Event(d.rows[0]) <= d.last
                <==> o.posted != 0 || o.seen != 0 || o.clock.atBuild == o.clock.atBounds)
  {
    assert [] + [BuildRow(o)] == [BuildRow(o)];
    assert Record([], o) == [BuildRow(o)];
  }

  /**
   * The "new source family" flag of a merge says that the families grew, except for a label such
   * as "x :y", whose family keeps a trailing blank: it is stored trimmed, never found again, and
   * reported as new every time.
   */
  lemma NewFamilyExact(families: seq<string>, o: Obs)
    requires Normal(families)
    ensures var f := SourceFamily(o.source);
            (NewFamily(families, o) <==> Elems(GrownFamilies(families, o)) != Elems(families))
            <==> (Trimmed(f) || Trim(f) !in families)
  {
    var f, known := SourceFamily(o.source), Elems(families);
    StartsWithVisible(o.source);
    GrownFamiliesMeaning(families, o);
    var grown := known + ({Trim(f)} - {""});
    assert f in families <==> f in known;
    assert Trim(f) in families <==> Trim(f) in known;
    assert grown != known <==> f != "" && Trim(f) !in known by {
      if f != "" && Trim(f) !in known {
        assert Trim(f) in grown;
      }
    }
  }

  lemma StartsWithVisible(source: string)
    ensures SourceFamily(source) != "" ==> !Blank(SourceFamily(source))
  {
    FamilyVisible(source);
    if Blank(source) {
      assert Lower(Trim(source)) == "";
    }
  }
}
