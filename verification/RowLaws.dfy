/** What recording does to each field of a timeline row, and which row a full timeline drops. */
module RowLaws {
  import opened Text
  import opened Lists
  import opened Entity
  import opened Timeline
  import opened HeatScore
  import opened Merging

  /** The stored snippet of a text: all of it without the blanks at its ends, or its first five hundred characters. */
  predicate SnippetOf(text: string, snippet: string) {
    && snippet <= Trim(text)
    && |snippet| == if |Trim(text)| <= 500 then |Trim(text)| else 500
  }

  /** A stored label list: the labels of the given list, each once. */
  predicate LabelList(given: seq<string>, stored: seq<string>) {
    Normal(stored) && Elems(stored) == Labels(given)
  }

  /** The row of a known hash after it was recorded again: what the sighting leaves out stays. */
  predicate Refreshed(old_: Row, o: Obs, new_: Row) {
    && new_.hash == old_.hash && new_.source == old_.source && new_.family == old_.family
    && new_.seen == (if o.seen != 0 then o.seen else o.clock.atRefresh)
    && new_.posted == (if o.posted != 0 then o.posted else old_.posted)
    && new_.score == (if o.score > 0 then o.score else old_.score)
    && (if |o.matched| > 0 then LabelList(o.matched, new_.matched) else new_.matched == old_.matched)
    && (if Trim(o.text) != "" then SnippetOf(o.text, new_.snippet) else new_.snippet == old_.snippet)
  }

  /** The row a new hash brings. */
  predicate Brought(o: Obs, r: Row) {
    && r.hash == Trim(o.hash) && r.source == Trim(o.source) && r.family == SourceFamily(o.source)
    && r.posted == o.posted && r.seen == (if o.seen != 0 then o.seen else o.clock.atBuild)
    && r.score == o.score && LabelList(o.matched, r.matched) && SnippetOf(o.text, r.snippet)
  }

  lemma RefreshedRow(r: Row, o: Obs)
    ensures Refreshed(r, o, RefreshRow(r, o))
  {
    UniqMeaning(o.matched);
  }

  lemma BroughtRow(o: Obs)
    ensures Brought(o, BuildRow(o))
  {
    UniqMeaning(o.matched);
  }

  /** Recording a stored hash again changes its row, as described, and no other. */
  lemma KnownHashRow(rows: seq<Row>, o: Obs, i: nat)
    requires DistinctHashes(rows) && |rows| <= MAX_SIGHTINGS && i < |rows| && rows[i].hash == Trim(o.hash) != ""
    ensures var rows' := Record(rows, o);
            && |rows'| == |rows| && Refreshed(rows[i], o, rows'[i])
            && forall j | 0 <= j < |rows| && j != i :: rows'[j] == rows[j]
  {
    RecordFound(rows, o, i);
    RefreshedRow(rows[i], o);
  }

  /** Recording a hash without a row appends the row described, as long as there is room. */
  lemma NewHashRow(rows: seq<Row>, o: Obs)
    requires Trim(o.hash) != "" && Trim(o.hash) !in Hashes(rows) && |rows| < MAX_SIGHTINGS
    ensures var rows' := Record(rows, o);
            |rows'| == |rows| + 1 && rows'[..|rows|] == rows && Brought(o, rows'[|rows|])
  {
    RecordMissing(rows, o);
    BroughtRow(o);
  }

  /** The instant a row is filed under: its post time, or else when it was seen. */
  predicate LaterRow(a: Row, b: Row) {
    var ta, tb := if a.posted != 0 then a.posted else a.seen, if b.posted != 0 then b.posted else b.seen;
    ta > tb || (ta == tb && Less(b.hash, a.hash))
  }

  /**
   * Into a full timeline a new row comes only by displacing: of the twenty-one, the one with the earliest
   * instant, at equal instants the one with the least hash, is dropped, and the others stay as they are.
   */
  lemma FullTimelineDrops(rows: seq<Row>, o: Obs)
    requires DistinctHashes(rows) && |rows| == 20 && Trim(o.hash) != "" && Trim(o.hash) !in Hashes(rows)
    ensures var rows' := Record(rows, o);
            && |rows'| == 20 && DistinctHashes(rows')
            && (forall r | r in rows' :: r in rows || Brought(o, r))
            && exists dropped ::
                 && dropped !in rows' && (dropped in rows || Brought(o, dropped))
                 && (forall r | r in rows' :: LaterRow(r, dropped))
                 && forall r | r in rows :: r in rows' || r == dropped
  {
    var b := BuildRow(o);
    var all := rows + [b];
    RecordMissing(rows, o);
    BroughtRow(o);
    AppendDistinct(rows, b);
    TrimKeepsTop(all);
    var dropped := OneDropped(all, Record(rows, o));
  }

  lemma SameHashSameRow(rows: seq<Row>, r: Row, q: Row)
    requires DistinctHashes(rows) && r in rows && q in rows && r.hash == q.hash
    ensures r == q
  {
    var i :| 0 <= i < |rows| && rows[i] == r;
    var j :| 0 <= j < |rows| && rows[j] == q;
  }

  /** Of two sets whose sizes differ by one, exactly one element is missing from the smaller. */
  lemma OneMissing(kept: set<Rank>, all: set<Rank>) returns (x: Rank)
    requires kept <= all && |all| == |kept| + 1
    ensures x in all && x !in kept && forall y | y in all :: y in kept || y == x
  {
    var gone := all - kept;
    assert |gone| == 1;
    x :| x in gone;
    SubsetSize({x}, gone);
    forall y | y in all ensures y in kept || y == x {
      assert y in kept || y in gone;
    }
  }

  lemma OneDropped(all: seq<Row>, kept: seq<Row>) returns (dropped: Row)
    requires DistinctHashes(all) && |all| == 21 && DistinctHashes(kept) && |kept| == 20
    requires (forall r | r in kept :: r in all) && IsTop(Ranks(kept), Ranks(all))
    ensures dropped in all && dropped !in kept && (forall r | r in kept :: LaterRow(r, dropped))
    ensures forall r | r in all :: r in kept || r == dropped
  {
    DistinctSize(all);
    DistinctSize(kept);
    var x := OneMissing(Ranks(kept), Ranks(all));
    dropped :| dropped in all && RankOf(dropped) == x;
    forall r | r in kept ensures LaterRow(r, dropped) {
      assert RankOf(r) in Ranks(kept) && x in Ranks(all) - Ranks(kept);
      assert Higher(RankOf(r), x);
    }
    forall r | r in all ensures r in kept || r == dropped {
      KeptOrDropped(all, kept, r, dropped);
    }
  }

  lemma KeptOrDropped(all: seq<Row>, kept: seq<Row>, r: Row, dropped: Row)
    requires DistinctHashes(all) && (forall q | q in kept :: q in all) && r in all && dropped in all
    requires forall y | y in Ranks(all) :: y in Ranks(kept) || y == RankOf(dropped)
    ensures r in kept || r == dropped
  {
    assert RankOf(r) in Ranks(all);
    if RankOf(r) in Ranks(kept) {
      var q :| q in kept && RankOf(q) == RankOf(r);
      SameHashSameRow(all, q, r);
    } else {
      SameHashSameRow(all, dropped, r);
    }
  }
}
