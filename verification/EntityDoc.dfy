/** The entity document as the code updates it: fields assigned one by one, rows scanned by loops. */
module InPlace {
  import opened Text
  import opened Lists
  import opened Entity
  import opened Timeline
  import opened HeatScore
  import opened Merging

  /** What a recording call reports. */
  datatype Result = Result(
    id: string, sightings: int, sourceCount: int, newFamily: bool, newEntity: bool,
    canonical: string, crossSourceHot: bool, heatScore: real, tier: Tier)

  const NO_RESULT := Result("", 0, 0, false, false, "", false, 0.0, Unset)

  const DEFAULT_WINDOW := 7 * DAY

  /** cross_source.go's CrossSourceHot: the tier decides, or, for a document never scored, its aggregates. */
  predicate CrossSourceHot(d: Doc, window: int) {
    if d.heat.tier != Unset then TierRank(d.heat.tier) >= TierRank(Hot)
    else
      && d.sourceCount >= 2 && d.painHits >= 1 && d.first != 0 && d.last != 0
      && d.last - d.first <= if window <= 0 then DEFAULT_WINDOW else window
  }

  function Enrich(r: Result, d: Doc, window: int): Result {
    r.(canonical := d.canonical, heatScore := d.heat.score, tier := d.heat.tier,
       crossSourceHot := CrossSourceHot(d, window))
  }

  // ---------------------------------------------------------------- the loops of heat.go

  method ComputeScore(rows: seq<Row>, c: Config, now: Time) returns (score: real)
    ensures score == Score(rows, c, now)
  {
    var sum := 0.0;
    for i := 0 to |rows|
      invariant sum == SumWeights(rows[..i], c, now)
    {
      assert rows[..i + 1][..i] == rows[..i];
      sum := sum + Weight(rows[i], c, now);
    }
    assert rows[..|rows|] == rows;
    var bonus := DiversityBonus(rows, now);
    score := sum * bonus;
  }

  method DiversityBonus(rows: seq<Row>, now: Time) returns (bonus: real)
    ensures bonus == Bonus(|Families(rows, now)|)
  {
    var families: set<string> := {};
    for i := 0 to |rows|
      invariant families == Families(rows[..i], now)
    {
      assert rows[..i + 1] == rows[..i] + [rows[i]];
      if Diverse(rows[i], now) {
        families := families + {RowFamily(rows[i])};
      }
    }
    assert rows[..|rows|] == rows;
    bonus := Bonus(|families|);
  }

  method ComputeFresh(rows: seq<Row>, now: Time, window: int) returns (latest: Time)
    ensures latest == Fresh(rows, now, window)
  {
    latest := 0;
    for i := 0 to |rows|
      invariant latest == Fresh(rows[..i], now, window)
    {
      assert rows[..i + 1][..i] == rows[..i];
      if Within(rows[i], now, window) && Event(rows[i]) > latest {
        latest := Event(rows[i]);
      }
    }
    assert rows[..|rows|] == rows;
  }

  method HeaviestHash(rows: seq<Row>, c: Config, now: Time) returns (hash: string)
    ensures hash == Best(rows, c, now).0
  {
    hash := "";
    var best := -1.0;
    for i := 0 to |rows|
      invariant (hash, best) == Best(rows[..i], c, now)
    {
      assert rows[..i + 1][..i] == rows[..i];
      if Within(rows[i], now, c.canonicalWindow) {
        var w := Weight(rows[i], c, now);
        if w > best {
          hash, best := rows[i].hash, w;
        }
      }
    }
    assert rows[..|rows|] == rows;
  }

  /** The three unions of a sighting's content. */
  method UnionAll(o: Obs, sources0: seq<string>, matched0: seq<string>, stack0: seq<string>)
    returns (sources: seq<string>, matched: seq<string>, stack: seq<string>)
    ensures sources == Union(sources0, [Trim(o.source)])
    ensures matched == Union(matched0, o.matched) && stack == Union(stack0, o.stack)
  {
    sources := UnionStrings(sources0, [Trim(o.source)]);
    matched := UnionStrings(matched0, o.matched);
    stack := UnionStrings(stack0, o.stack);
  }

  // ---------------------------------------------------------------- the document

  class EntityDoc {
    const id: string
    const primary: Key
    var aliases: seq<string>
    var hashes: seq<string>
    var sources: seq<string>
    var families: seq<string>
    var matched: seq<string>
    var stack: seq<string>
    var first: Time
    var last: Time
    var sightings: int
    var sourceCount: int
    var painHits: int
    var buyerSeen: bool
    var canonical: string
    var heat: Heat
    var review: Review
    var generation: int
    var rows: seq<Row>

    /** The document's value. */
    function View(): Doc
      reads this
    {
      Doc(id, primary, aliases, hashes, sources, families, matched, stack, first, last, sightings,
          sourceCount, painHits, buyerSeen, canonical, heat, review, generation, rows)
    }

    /** NewDocWithHeat */
    constructor (sig: Signals, id: string, primary: Key, o: Obs, cfg: Config, now: Time)
      ensures View() == NewDoc(sig, id, primary, o, cfg, now)
    {
      this.id, this.primary := id, primary;
      aliases := AliasTokens(o.keys);
      hashes, sources, families := Uniq([Trim(o.hash)]), Uniq([Trim(o.source)]), Uniq([SourceFamily(o.source)]);
      matched, stack := Uniq(o.matched), Uniq(o.stack);
      first, last, sightings, sourceCount := 0, 0, 1, 1;
      painHits := if HasPain(sig, o.text, o.matched) then 1 else 0;
      buyerSeen, canonical := sig.buyer(o.stack, o.text), Trim(o.hash);
      heat, review, generation, rows := NO_HEAT, NO_REVIEW, 0, [];
      new;
      ObserveSighting(o);
      RecomputeHeat(cfg, now, o.clock.atHeat);
    }

    /** appendOrRefreshEntitySighting: scan for the hash, refresh that row in place, or append one; then trim. */
    method AppendOrRefresh(o: Obs) returns (appended: bool)
      modifies this`rows
      ensures rows == Record(old(rows), o)
      ensures appended <==> Trim(o.hash) != "" && Trim(o.hash) !in Hashes(old(rows))
    {
      var h := Trim(o.hash);
      if h == "" {
        return false;
      }
      for i := 0 to |rows|
        invariant rows == old(rows)
        invariant h !in Hashes(rows[..i])
        invariant forall j :: 0 <= j < i ==> rows[j].hash != h
      {
        if rows[i].hash != h {
          assert rows[..i + 1] == rows[..i] + [rows[i]];
          continue;
        }
        assert rows[i] in rows && h in Hashes(rows);
        RecordFound(rows, o, i);
        rows := rows[i := RefreshRow(rows[i], o)];
        TrimSightings();
        return false;
      }
      assert rows[..|rows|] == rows;
      RecordMissing(rows, o);
      rows := rows + [BuildRow(o)];
      TrimSightings();
      return true;
    }

    /** trimEntitySightings */
    method TrimSightings()
      modifies this`rows
      ensures rows == TrimRows(old(rows))
    {
      if |rows| <= MAX_SIGHTINGS {
        return;
      }
      SortRowsSorts(rows);
      assert |multiset(rows)| == |rows|;
      rows := SortRows(rows);
      rows := rows[..MAX_SIGHTINGS];
    }

    /** updateEntitySeenBounds */
    method UpdateSeenBounds(o: Obs)
      modifies this`first, this`last
      ensures first == Earlier(old(first), EventOf(o)) && last == Later(old(last), EventOf(o))
    {
      var event := EventOf(o);
      if first == 0 || event < first {
        first := event;
      }
      if event > last {
        last := event;
      }
    }

    /** The two updates every recording path makes. */
    method ObserveSighting(o: Obs)
      modifies this`rows, this`first, this`last
      ensures View() == Observe(old(View()), o)
    {
      var appended := AppendOrRefresh(o);
      UpdateSeenBounds(o);
    }

    /** RecomputeEntityHeat */
    method RecomputeHeat(cfg: Config, now: Time, reading: Time)
      modifies this`heat, this`canonical
      ensures View() == Recompute(old(View()), cfg, now, reading)
    {
      if !cfg.enabled {
        return;
      }
      var t := if now == 0 then reading else now;
      var c := Normalize(cfg);
      var freshAt := ComputeFresh(rows, t, c.freshWindow);
      var score := ComputeScore(rows, c, t);
      heat := Heat(score, Round(score), Classify(score, freshAt, sourceCount, painHits, c), t, freshAt);
      var best := HeaviestHash(rows, c, t);
      if best != "" {
        canonical := best;
      }
    }

    /** MergeSightingWithHeat */
    method MergeSighting(sig: Signals, o: Obs, cfg: Config, now: Time) returns (res: Result)
      modifies this
      ensures View() == Merge(sig, old(View()), o, cfg, now)
      ensures var known := HashKnown(old(View()), Trim(o.hash));
              res == NO_RESULT.(id := id, sightings := sightings, sourceCount := sourceCount,
                                newFamily := !known && NewFamily(old(families), o))
    {
      var h := Trim(o.hash);
      if h != "" && h in hashes {
        res := RefreshSighting(o);
        return;
      }
      var newFamily := GrowSighting(sig, o);
      ObserveSighting(o);
      RecomputeHeat(cfg, now, o.clock.atHeat);
      res := NO_RESULT.(id := id, sightings := sightings, sourceCount := sourceCount, newFamily := newFamily);
    }

    /** The new-hash updates of MergeSightingWithHeat before the timeline is touched. */
    method GrowSighting(sig: Signals, o: Obs) returns (newFamily: bool)
      modifies this
      ensures View() == Grow(sig, old(View()), o)
      ensures newFamily == NewFamily(old(families), o)
    {
      GrowLists(o);
      newFamily := UnionFamily(o);
      FlagSignals(sig, o);
    }

    method GrowLists(o: Obs)
      modifies this`sightings, this`generation, this`aliases, this`hashes, this`sources, this`matched, this`stack
      ensures View() == GrowContent(GrowIdentity(Count(old(View())), o), o)
    {
      CountSighting();
      UnionIdentity(o);
      UnionContent(o);
    }

    method CountSighting()
      modifies this`sightings, this`generation
      ensures View() == Count(old(View()))
    {
      sightings := sightings + 1;
      generation := generation + 1;
    }

    method UnionIdentity(o: Obs)
      modifies this`aliases, this`hashes
      ensures View() == GrowIdentity(old(View()), o)
    {
      aliases := UnionStrings(aliases, AliasTokens(o.keys));
      hashes := UnionStrings(hashes, [Trim(o.hash)]);
    }

    method UnionContent(o: Obs)
      modifies this`sources, this`matched, this`stack
      ensures View() == GrowContent(old(View()), o)
    {
      var s, m, k := UnionAll(o, sources, matched, stack);
      sources, matched, stack := s, m, k;
    }

    method UnionFamily(o: Obs) returns (newFamily: bool)
      modifies this`families, this`sourceCount
      ensures newFamily == NewFamily(old(families), o)
      ensures View() == GrowFamily(old(View()), o)
    {
      var family := SourceFamily(o.source);
      newFamily := family != "" && family !in families;
      if newFamily {
        families := UnionStrings(families, [family]);
      }
      sourceCount := |families|;
    }

    method FlagSignals(sig: Signals, o: Obs)
      modifies this`painHits, this`buyerSeen, this`canonical
      ensures View() == Flag(sig, old(View()), o)
    {
      var hasPain, buyerRole := HasPain(sig, o.text, o.matched), sig.buyer(o.stack, o.text);
      if hasPain {
        painHits := painHits + 1;
      }
      var hadBuyerRole := buyerSeen;
      if buyerRole {
        buyerSeen := true;
      }
      if canonical == "" {
        canonical := Trim(o.hash);
      } else if buyerRole && !hadBuyerRole {
        canonical := Trim(o.hash);
      }
    }

    /** refreshEntitySighting */
    method RefreshSighting(o: Obs) returns (res: Result)
      modifies this
      ensures View() == Refresh(old(View()), o)
      ensures res == NO_RESULT.(id := id, sightings := sightings, sourceCount := sourceCount)
    {
      ghost var d := View();
      generation := generation + 1;
      assert View() == d.(generation := d.generation + 1);
      ObserveSighting(o);
      RecomputeHeat(DEFAULT, o.clock.atHeat, o.clock.atHeat);
      res := NO_RESULT.(id := id, sightings := sightings, sourceCount := sourceCount);
    }
  }
}
