/** What a split keeps, forgets and undoes. */
module SplitLaws {
  import opened Text
  import opened Lists
  import opened Entity
  import opened Timeline
  import opened HeatScore
  import opened Merging
  import opened Folding
  import opened Replaying
  import opened Splitting

  lemma {:induction false} WithoutMeaning(rows: seq<Row>, h: string)
    ensures forall r :: r in Without(rows, h) <==> r in rows && r.hash != h
    ensures DistinctHashes(rows) ==> DistinctHashes(Without(rows, h))
  {
    if rows != [] {
      var before, r := rows[..|rows| - 1], rows[|rows| - 1];
      assert rows == before + [r];
      WithoutMeaning(before, h);
      if DistinctHashes(rows) {
        assert DistinctHashes(before);
        forall q | q in before ensures q.hash != r.hash {}
      }
    }
  }

  /** The hashes a split leaves: those of the other timeline rows. */
  lemma RemainingHashes(d: Doc, h: string, order: seq<string>)
    requires Shape(d) && ListsHashesOf(order, Without(d.rows, h))
    ensures Elems(order) == Hashes(d.rows) - {h} && |order| == |Hashes(d.rows) - {h}|
  {
    WithoutMeaning(d.rows, h);
    NoDupSize(order);
    var kept := Without(d.rows, h);
    forall r | r in d.rows ensures Trim(r.hash) == r.hash && r.hash != "" {
      assert r.hash in d.hashes;
    }
    assert (set r | r in kept :: Trim(r.hash)) - {""} == Hashes(d.rows) - {h};
  }

  /**
   * A split forgets no other hash exactly when every other hash still has its timeline row:
   * at most twenty hashes, or twenty-one with the detached one already trimmed.
   */
  lemma SplitKeepsHashes(d: Doc, h: string, order: seq<string>)
    requires DocInv(d) && h in d.hashes && ListsHashesOf(order, Without(d.rows, h))
    ensures Elems(order) == Elems(d.hashes) - {h}
            <==> (|d.hashes| <= MAX_SIGHTINGS || (|d.hashes| == MAX_SIGHTINGS + 1 && h !in Hashes(d.rows)))
  {
    var all, stored := Elems(d.hashes), Hashes(d.rows);
    RemainingHashes(d, h, order);
    NoDupSize(d.hashes);
    DistinctSize(d.rows);
    assert stored <= all && h in all;
    assert |all - {h}| == |all| - 1;
    SubsetSize(stored - {h}, all - {h});
    if h in stored {
      assert |stored - {h}| == |stored| - 1;
    } else {
      assert stored - {h} == stored;
    }
  }

  /** The source is reported deleted exactly when the detached hash was its only one. */
  lemma SplitDeletes(d: Doc, h: string, order: seq<string>)
    requires DocInv(d) && h in d.hashes && ListsHashesOf(order, Without(d.rows, h))
    ensures order == [] <==> d.hashes == [h]
  {
    var all, stored := Elems(d.hashes), Hashes(d.rows);
    RemainingHashes(d, h, order);
    NoDupSize(d.hashes);
    DistinctSize(d.rows);
    if |d.hashes| == 1 {
      assert d.hashes == [h];
      assert stored <= {h};
      assert stored - {h} == {};
    } else {
      assert |stored| >= 2;
      SubsetSize(stored - {h}, stored);
      assert |stored| <= |stored - {h}| + 1 by {
        SubsetSize(stored, (stored - {h}) + {h});
      }
    }
  }

  // ---------------------------------------------------------------- the rebuild, without order

  ghost function GatherRows(f: Row -> set<string>, rows: seq<Row>): set<string> {
    set r, a | r in rows && a in f(r) :: a
  }

  function RowSource(r: Row): set<string> { {Trim(r.source)} - {""} }
  function RowFamilyLabel(r: Row): set<string> { {Trim(RowLabel(r))} - {""} }
  function RowMatched(r: Row): set<string> { Labels(r.matched) }

  lemma AddRow(f: Row -> set<string>, rows: seq<Row>, r: Row)
    ensures GatherRows(f, rows + [r]) == GatherRows(f, rows) + f(r)
  {
    assert forall q | q in rows :: q in rows + [r];
    assert r in rows + [r];
  }

  lemma {:induction false} RebuildLabels(sig: Signals, rows: seq<Row>)
    ensures var a := Rebuild(sig, rows);
            && Normal(a.sources) && Normal(a.families) && Normal(a.matched)
            && Elems(a.sources) == GatherRows(RowSource, rows)
            && Elems(a.families) == GatherRows(RowFamilyLabel, rows)
            && Elems(a.matched) == GatherRows(RowMatched, rows)
  {
    if rows != [] {
      var before, r := rows[..|rows| - 1], rows[|rows| - 1];
      var a := Rebuild(sig, before);
      assert rows == before + [r];
      RebuildLabels(sig, before);
      AddRow(RowSource, before, r);
      AddRow(RowFamilyLabel, before, r);
      AddRow(RowMatched, before, r);
      RebuildSnoc(sig, before, r);
      StepLabels(sig, a, r);
    }
  }

  lemma StepLabels(sig: Signals, a: Agg, r: Row)
    requires Normal(a.sources) && Normal(a.families) && Normal(a.matched)
    ensures var b := AggStep(sig, a, r);
            && Normal(b.sources) && Normal(b.families) && Normal(b.matched)
            && Elems(b.sources) == Elems(a.sources) + RowSource(r)
            && Elems(b.families) == Elems(a.families) + RowFamilyLabel(r)
            && Elems(b.matched) == Elems(a.matched) + RowMatched(r)
  {
    UnionMeaning(a.sources, [Trim(r.source)]);
    UnionMeaning(a.families, [RowLabel(r)]);
    UnionMeaning(a.matched, r.matched);
    LabelsOne(Trim(r.source));
    LabelsOne(RowLabel(r));
  }

  /** The instants the rebuild looks at: a row without one is passed over. */
  function RowEvents(rows: seq<Row>): set<Time> {
    set r | r in rows && Event(r) != 0 :: Event(r)
  }

  /** The seen bounds of a set of events; last_seen starts from the zero time. */
  predicate Spans(es: set<Time>, first: Time, last: Time) {
    && (forall e | e in es :: first <= e <= last)
    && (es != {} ==> first in es) && last >= 0 && (last == 0 || last in es)
  }

  lemma SpansStep(es: set<Time>, first: Time, last: Time, e: Time)
    requires Spans(es, first, last) && e != 0 && (es == {} ==> first == 0) && 0 !in es
    ensures Spans(es + {e}, Earlier(first, e), Later(last, e))
  {
    assert e in es + {e};
  }

  lemma {:induction false} RebuildBounds(sig: Signals, rows: seq<Row>)
    ensures Spans(RowEvents(rows), Rebuild(sig, rows).first, Rebuild(sig, rows).last)
    ensures RowEvents(rows) == {} ==> Rebuild(sig, rows).first == 0
  {
    if rows != [] {
      var before, r := rows[..|rows| - 1], rows[|rows| - 1];
      assert rows == before + [r];
      assert RowEvents(rows) == RowEvents(before) + ({Event(r)} - {0});
      RebuildBounds(sig, before);
      if Event(r) != 0 {
        SpansStep(RowEvents(before), Rebuild(sig, before).first, Rebuild(sig, before).last, Event(r));
        assert RowEvents(rows) == RowEvents(before) + {Event(r)};
      } else {
        assert RowEvents(rows) == RowEvents(before);
      }
    }
  }

  ghost function PainRows(sig: Signals, rows: seq<Row>): set<Row> {
    set r | r in rows && HasPain(sig, r.snippet, r.matched)
  }

  ghost function BuyerRows(sig: Signals, rows: seq<Row>): set<Row> {
    set r | r in rows && sig.buyer([], r.snippet)
  }

  lemma AddSignalRow(sig: Signals, rows: seq<Row>, r: Row)
    ensures PainRows(sig, rows + [r]) == PainRows(sig, rows) + if HasPain(sig, r.snippet, r.matched) then {r} else {}
    ensures BuyerRows(sig, rows + [r]) == BuyerRows(sig, rows) + if sig.buyer([], r.snippet) then {r} else {}
  {
  }

  lemma {:induction false} RebuildSignals(sig: Signals, rows: seq<Row>)
    requires DistinctHashes(rows)
    ensures Rebuild(sig, rows).painHits == |PainRows(sig, rows)|
    ensures Rebuild(sig, rows).buyerSeen == (BuyerRows(sig, rows) != {})
  {
    if rows != [] {
      var before, r := rows[..|rows| - 1], rows[|rows| - 1];
      assert rows == before + [r];
      RebuildSignals(sig, before);
      assert r !in before by {
        forall q | q in before ensures q.hash != r.hash {}
      }
      AddSignalRow(sig, before, r);
      assert r !in PainRows(sig, before);
    } else {
      assert PainRows(sig, rows) == {} && BuyerRows(sig, rows) == {};
    }
  }

  // ---------------------------------------------------------------- split undoes merge

  ghost predicate OneEach(s: set<Obs>) {
    forall o, p | o in s && p in s && HashOf(o) == HashOf(p) :: o == p
  }

  /** Up to twenty sightings, the timeline holds all their rows. */
  lemma FullRows(s: set<Obs>, rows: seq<Row>)
    requires TopRows([], s, rows) && OneEach(s) && |s| <= MAX_SIGHTINGS
    ensures forall r :: r in rows <==> r in Image(BuildRow, s)
  {
    var t := Image(BuiltRank, s);
    ImageSize(BuiltRank, s);
    assert Ranks([]) + t == t;
    SubsetSize(Ranks(rows), t);
    forall o | o in s
      ensures BuildRow(o) in rows
    {
      assert BuiltRank(o) in Ranks(rows);
      var r :| r in rows && RankOf(r) == BuiltRank(o);
      var p :| p in s && BuildRow(p) == r;
      assert HashOf(p) == HashOf(o);
    }
  }

  lemma {:induction false} ImageSize<T>(f: Obs -> T, s: set<Obs>)
    ensures |Image(f, s)| <= |s|
  {
    if o :| o in s {
      ImageSize(f, s - {o});
      assert (s - {o}) + {o} == s;
      AddImage(f, s - {o}, o);
    } else {
      assert Image(f, s) == {};
    }
  }

  lemma {:induction false} ImageOfDistinct(s: set<Obs>)
    requires OneEach(s)
    ensures |Image(BuildRow, s)| == |s|
  {
    if o :| o in s {
      ImageOfDistinct(s - {o});
      assert (s - {o}) + {o} == s;
      AddImage(BuildRow, s - {o}, o);
      forall p | p in s - {o} ensures BuildRow(p).hash != BuildRow(o).hash {
        assert BuildRow(p).hash == HashOf(p) && BuildRow(o).hash == HashOf(o);
      }
    } else {
      assert Image(BuildRow, s) == {};
    }
  }

  /** Labels gathered from rows are those gathered from the sightings the rows were built from. */
  lemma RowsGather(rows: seq<Row>, s: set<Obs>, f: Row -> set<string>, g: Obs -> set<string>)
    requires forall r :: r in rows <==> r in Image(BuildRow, s)
    requires forall o | o in s :: f(BuildRow(o)) == g(o)
    ensures GatherRows(f, rows) == Gather(g, s)
  {
    forall o | o in s ensures BuildRow(o) in rows {
      assert BuildRow(o) in Image(BuildRow, s);
    }
  }

  lemma RowLabels(o: Obs)
    requires Recordable(o)
    ensures RowSource(BuildRow(o)) == SourceLabel(o)
    ensures RowFamilyLabel(BuildRow(o)) == FamilyLabel(o)
    ensures RowMatched(BuildRow(o)) == MatchedLabels(o)
  {
    FamilyVisible(o.source);
    UniqMeaning(o.matched);
    NormalLabels(Uniq(o.matched));
  }

  /** The rebuilt labels are those of the remaining sightings. */
  lemma RebuiltLabels(sig: Signals, rows: seq<Row>, s: set<Obs>)
    requires forall r :: r in rows <==> r in Image(BuildRow, s)
    requires forall o | o in s :: Recordable(o)
    ensures var a := Rebuild(sig, rows);
            && Normal(a.families) && Elems(a.sources) == Gather(SourceLabel, s)
            && Elems(a.families) == Gather(FamilyLabel, s) && Elems(a.matched) == Gather(MatchedLabels, s)
  {
    RebuildLabels(sig, rows);
    forall o | o in s
      ensures RowSource(BuildRow(o)) == SourceLabel(o) && RowFamilyLabel(BuildRow(o)) == FamilyLabel(o)
              && RowMatched(BuildRow(o)) == MatchedLabels(o)
    {
      RowLabels(o);
    }
    RowsGather(rows, s, RowSource, SourceLabel);
    RowsGather(rows, s, RowFamilyLabel, FamilyLabel);
    RowsGather(rows, s, RowMatched, MatchedLabels);
  }

  /** The rebuilt bounds are the earliest and latest of the remaining sightings. */
  lemma RebuiltBounds(sig: Signals, rows: seq<Row>, s: set<Obs>, first: Time, last: Time)
    requires s != {} && forall r :: r in rows <==> r in Image(BuildRow, s)
    requires forall o | o in s :: Recordable(o)
    requires Earliest(0, s, first) && Latest(0, s, last)
    ensures Rebuild(sig, rows).first == first && Rebuild(sig, rows).last == last
  {
    SameEvents(rows, s);
    RebuildBounds(sig, rows);
    BoundsSpan(s, first, last);
    var o :| o in s;
    assert EventOf(o) in Image(EventOf, s);
  }

  lemma SameEvents(rows: seq<Row>, s: set<Obs>)
    requires (forall r :: r in rows <==> r in Image(BuildRow, s)) && forall o | o in s :: Recordable(o)
    ensures RowEvents(rows) == Image(EventOf, s)
  {
    forall o | o in s
      ensures EventOf(o) in RowEvents(rows) && EventOf(o) != 0
    {
      assert BuildRow(o) in Image(BuildRow, s);
      RowEvent(BuildRow(o), o);
    }
    forall r | r in rows
      ensures Event(r) in Image(EventOf, s)
    {
      var o :| o in s && BuildRow(o) == r;
      RowEvent(r, o);
    }
  }

  lemma BoundsSpan(s: set<Obs>, first: Time, last: Time)
    requires s != {} && Earliest(0, s, first) && Latest(0, s, last)
    ensures Spans(Image(EventOf, s), first, last)
  {
  }

  /** The row keeps enough of the sighting for the text filters to say the same. */
  predicate SignalsSurvive(sig: Signals, o: Obs) {
    var r := BuildRow(o);
    && HasPain(sig, r.snippet, r.matched) == HasPain(sig, o.text, o.matched)
    && sig.buyer([], r.snippet) == sig.buyer(o.stack, o.text)
  }

  lemma RebuiltSignals(sig: Signals, rows: seq<Row>, s: set<Obs>)
    requires DistinctHashes(rows) && OneEach(s) && forall r :: r in rows <==> r in Image(BuildRow, s)
    requires forall o | o in s :: SignalsSurvive(sig, o)
    ensures Rebuild(sig, rows).painHits == |PainfulOf(sig, s)|
    ensures Rebuild(sig, rows).buyerSeen == (BuyersOf(sig, s) != {})
  {
    RebuildSignals(sig, rows);
    assert PainRows(sig, rows) == Image(BuildRow, PainfulOf(sig, s));
    ImageOfDistinct(PainfulOf(sig, s));
    assert BuyerRows(sig, rows) == Image(BuildRow, BuyersOf(sig, s));
    if o :| o in BuyersOf(sig, s) {
      assert BuildRow(o) in Image(BuildRow, BuyersOf(sig, s));
    }
  }

  /** Equal in everything a split rebuilds. */
  ghost predicate SameRest(x: Doc, y: Doc) {
    && Elems(x.hashes) == Elems(y.hashes) && Elems(x.sources) == Elems(y.sources)
    && Elems(x.families) == Elems(y.families) && Elems(x.matched) == Elems(y.matched)
    && x.sightings == y.sightings && x.sourceCount == y.sourceCount
    && x.first == y.first && x.last == y.last && multiset(x.rows) == multiset(y.rows)
  }

  function Omit(os: seq<Obs>, k: nat): seq<Obs>
    requires k < |os|
  {
    os[..k] + os[k + 1..]
  }

  lemma OmitMeaning(os: seq<Obs>, k: nat)
    requires DistinctSightings(os) && k < |os|
    ensures DistinctSightings(Omit(os, k)) && SetOf(Omit(os, k)) == SetOf(os) - {os[k]}
    ensures OneEach(SetOf(os)) && |SetOf(os)| <= |os|
  {
    OmitDistinct(os, k);
    OmitSet(os, k);
    UnseenSet(Origin("", Key("", "")), os);
  }

  lemma OmitDistinct(os: seq<Obs>, k: nat)
    requires DistinctSightings(os) && k < |os|
    ensures DistinctSightings(Omit(os, k))
  {
    var rest := Omit(os, k);
    forall i | 0 <= i < |rest|
      ensures rest[i] == if i < k then os[i] else os[i + 1]
    {
    }
  }

  lemma OmitSet(os: seq<Obs>, k: nat)
    requires DistinctSightings(os) && k < |os|
    ensures SetOf(Omit(os, k)) == SetOf(os) - {os[k]}
  {
    assert os == os[..k] + [os[k]] + os[k + 1..];
    forall i | 0 <= i < |os| && i != k
      ensures os[i] != os[k]
    {
      assert HashOf(os[i]) != HashOf(os[k]);
    }
    assert os[k] !in os[..k] && os[k] !in os[k + 1..];
    forall o ensures o in Omit(os, k) <==> o in os && o != os[k] {}
  }

  /** x carries the rebuild of the given rows and nothing else. */
  ghost predicate Rebuilt(sig: Signals, rows: seq<Row>, order: seq<string>, x: Doc) {
    var a := Rebuild(sig, rows);
    && x.rows == rows && x.hashes == order && x.sightings == |order|
    && x.sources == a.sources && x.families == a.families && x.sourceCount == |a.families|
    && x.matched == a.matched && x.painHits == a.painHits && x.buyerSeen == a.buyerSeen
    && x.first == a.first && x.last == a.last
  }

  /** A sum onto the empty document, read off its parts. */
  lemma SumOfOrigin(sig: Signals, e: Doc, s: set<Obs>, y: Doc)
    requires e == Origin(e.id, e.primary) && s != {} && Sums(sig, e, s, y)
    ensures TopRows([], s, y.rows) && Earliest(0, s, y.first) && Latest(0, s, y.last)
    ensures Elems(y.hashes) == Image(HashOf, s) && Elems(y.sources) == Gather(SourceLabel, s)
    ensures Elems(y.families) == Gather(FamilyLabel, s) && Elems(y.matched) == Gather(MatchedLabels, s)
    ensures y.sightings == |s| && y.sourceCount == |Elems(y.families)|
    ensures y.painHits == |PainfulOf(sig, s)| && y.buyerSeen == (BuyersOf(sig, s) != {})
  {
    LabelsOfOrigin(e, s, y);
  }

  lemma LabelsOfOrigin(e: Doc, s: set<Obs>, y: Doc)
    requires e.hashes == e.sources == e.families == e.matched == [] && LabelSums(e, s, y)
    ensures Elems(y.hashes) == Image(HashOf, s) && Elems(y.sources) == Gather(SourceLabel, s)
    ensures Elems(y.families) == Gather(FamilyLabel, s) && Elems(y.matched) == Gather(MatchedLabels, s)
  {
    var none := Elems([]);
    assert none == {};
    assert none + Image(HashOf, s) == Image(HashOf, s);
    assert none + Gather(SourceLabel, s) == Gather(SourceLabel, s);
    assert none + Gather(FamilyLabel, s) == Gather(FamilyLabel, s);
    assert none + Gather(MatchedLabels, s) == Gather(MatchedLabels, s);
  }

  lemma RestRows(rows: seq<Row>, s: set<Obs>, yrows: seq<Row>)
    requires DistinctHashes(rows) && (forall r :: r in rows <==> r in Image(BuildRow, s))
    requires OneEach(s) && |s| <= MAX_SIGHTINGS && TopRows([], s, yrows)
    ensures multiset(rows) == multiset(yrows)
  {
    FullRows(s, yrows);
    SameRowsPermute(rows, yrows);
  }

  lemma RestLabels(sig: Signals, rows: seq<Row>, order: seq<string>, x: Doc, s: set<Obs>)
    requires ListsHashesOf(order, rows) && Rebuilt(sig, rows, order, x)
    requires (forall r :: r in rows <==> r in Image(BuildRow, s)) && forall o | o in s :: Recordable(o)
    ensures Elems(x.sources) == Gather(SourceLabel, s) && Elems(x.families) == Gather(FamilyLabel, s)
    ensures Elems(x.matched) == Gather(MatchedLabels, s) && x.sourceCount == |Elems(x.families)|
    ensures Elems(x.hashes) == Image(HashOf, s) && x.sightings == |Image(HashOf, s)|
  {
    RebuiltLabels(sig, rows, s);
    NoDupSize(x.families);
    HashesLeft(rows, order, s);
    assert "" !in Image(HashOf, s);
    assert Image(HashOf, s) - {""} == Image(HashOf, s);
  }

  /** The split source against the sum of the remaining sightings. */
  lemma RestIsSum(sig: Signals, rows: seq<Row>, order: seq<string>, x: Doc, s: set<Obs>, y: Doc, e: Doc)
    requires DistinctHashes(rows) && ListsHashesOf(order, rows) && Rebuilt(sig, rows, order, x)
    requires forall r :: r in rows <==> r in Image(BuildRow, s)
    requires s != {} && OneEach(s) && |s| <= MAX_SIGHTINGS && forall o | o in s :: Recordable(o)
    requires e == Origin(e.id, e.primary) && Sums(sig, e, s, y)
    ensures SameRest(x, y)
    ensures (forall o | o in s :: SignalsSurvive(sig, o)) ==> x.painHits == y.painHits && x.buyerSeen == y.buyerSeen
  {
    SumOfOrigin(sig, e, s, y);
    RestRows(rows, s, y.rows);
    RestLabels(sig, rows, order, x, s);
    RebuiltBounds(sig, rows, s, y.first, y.last);
    ImageOfDistinctHashes(s);
    if forall o | o in s :: SignalsSurvive(sig, o) {
      RebuiltSignals(sig, rows, s);
    }
  }

  lemma RestFields(sig: Signals, d: Doc, h: string, order: seq<string>, cfg: Config, now: Time)
    ensures Rebuilt(sig, Without(d.rows, h), order, Rest(sig, d, h, order, cfg, now))
  {
  }

  /** A split leaves identity, aliases and stack alone, clears the classification and advances the generation. */
  lemma SplitFrame(sig: Signals, d: Doc, h: string, order: seq<string>, cfg: Config, now: Time)
    ensures var x := Rest(sig, d, h, order, cfg, now);
            && x.id == d.id && x.primary == d.primary && x.aliases == d.aliases && x.stack == d.stack
            && x.generation == d.generation + 1 && x.review == NO_REVIEW
  {
  }

  /** The heat of the rest is the heat of its rows at the instant of the split. */
  lemma RestHeat(sig: Signals, d: Doc, h: string, order: seq<string>, cfg: Config, now: Time)
    ensures var x := Rest(sig, d, h, order, cfg, now);
            cfg.enabled ==> x.heat == HeatOf(x.rows, x.sourceCount, x.painHits, Normalize(cfg), now)
  {
  }

  lemma GatherFewer(f: Obs -> set<string>, s: set<Obs>, s': set<Obs>)
    requires s <= s'
    ensures Gather(f, s) <= Gather(f, s')
  {
  }

  /** What the other sightings alone would have left is still there. */
  lemma KeepsAliases(sig: Signals, e: Doc, s: set<Obs>, s': set<Obs>, y: Doc, d: Doc)
    requires s <= s' && Sums(sig, e, s, y) && Sums(sig, e, s', d)
    ensures Labels(y.aliases) <= Labels(d.aliases) && Elems(y.stack) <= Elems(d.stack)
  {
    GatherFewer(AliasLabels, s, s');
    GatherFewer(StackLabels, s, s');
  }

  lemma HashesLeft(kept: seq<Row>, order: seq<string>, s: set<Obs>)
    requires ListsHashesOf(order, kept)
    requires forall r :: r in kept <==> r in Image(BuildRow, s)
    ensures Elems(order) == Image(HashOf, s) - {""} && |order| == |Elems(order)|
  {
    NoDupSize(order);
    forall o | o in s ensures BuildRow(o) in kept {
      assert BuildRow(o) in Image(BuildRow, s);
    }
    assert (set r | r in kept :: Trim(r.hash)) == Image(HashOf, s) by {
      forall r | r in kept ensures Trim(r.hash) in Image(HashOf, s) {
        var o :| o in s && BuildRow(o) == r;
        assert HashOf(o) == Trim(r.hash);
      }
      forall o | o in s ensures HashOf(o) == Trim(BuildRow(o).hash) {}
    }
  }

  lemma {:induction false} ImageOfDistinctHashes(s: set<Obs>)
    requires OneEach(s)
    ensures |Image(HashOf, s)| == |s|
  {
    if o :| o in s {
      ImageOfDistinctHashes(s - {o});
      assert (s - {o}) + {o} == s;
      AddImage(HashOf, s - {o}, o);
    } else {
      assert Image(HashOf, s) == {};
    }
  }

  /**
   * Split undoes merge: an entity of at most twenty distinct sightings, with one of them split
   * out, is the entity that never saw it, in every aggregate the split rebuilds.
   */
  lemma SplitUndoesMerge(
      sig: Signals, id: string, primary: Key, cfg: Config, os: seq<Obs>, k: nat, order: seq<string>, now: Time)
    requires DistinctSightings(os) && 2 <= |os| <= MAX_SIGHTINGS && k < |os|
    requires ListsHashesOf(order, Without(Replay(sig, id, primary, cfg, os).rows, HashOf(os[k])))
    ensures var d := Replay(sig, id, primary, cfg, os);
            var x, y := Rest(sig, d, HashOf(os[k]), order, cfg, now), Replay(sig, id, primary, cfg, Omit(os, k));
            && SameRest(x, y)
            && ((forall o | o in Omit(os, k) :: SignalsSurvive(sig, o)) ==>
                  x.painHits == y.painHits && x.buyerSeen == y.buyerSeen)
            && (cfg.enabled ==> x.heat == HeatOf(y.rows, y.sourceCount, x.painHits, Normalize(cfg), now))
            && (cfg.enabled ==> HeaviestNow(y.rows, Normalize(cfg), now, x.canonical))
            && Labels(y.aliases) <= Labels(x.aliases) && Elems(y.stack) <= Elems(x.stack)
  {
    var d, rest, h := Replay(sig, id, primary, cfg, os), Omit(os, k), HashOf(os[k]);
    SplitRows(sig, id, primary, cfg, os, k);
    OmitMeaning(os, k);
    ReplaySums(sig, id, primary, cfg, rest);
    RestFields(sig, d, h, order, cfg, now);
    SubsetSize(SetOf(rest), SetOf(os));
    assert rest[0] in SetOf(rest);
    RestIsSum(sig, Without(d.rows, h), order, Rest(sig, d, h, order, cfg, now), SetOf(rest),
              Replay(sig, id, primary, cfg, rest), Origin(id, primary));
    SplitSurroundings(sig, id, primary, cfg, os, k, order, now);
  }

  lemma SplitSurroundings(
      sig: Signals, id: string, primary: Key, cfg: Config, os: seq<Obs>, k: nat, order: seq<string>, now: Time)
    requires DistinctSightings(os) && 2 <= |os| && k < |os|
    ensures var d := Replay(sig, id, primary, cfg, os);
            var x, y := Rest(sig, d, HashOf(os[k]), order, cfg, now), Replay(sig, id, primary, cfg, Omit(os, k));
            && (cfg.enabled && SameRest(x, y) ==>
                  x.heat == HeatOf(y.rows, y.sourceCount, x.painHits, Normalize(cfg), now))
            && (cfg.enabled && SameRest(x, y) ==> HeaviestNow(y.rows, Normalize(cfg), now, x.canonical))
            && Labels(y.aliases) <= Labels(x.aliases) && Elems(y.stack) <= Elems(x.stack)
  {
    var d, rest, h := Replay(sig, id, primary, cfg, os), Omit(os, k), HashOf(os[k]);
    var x, y := Rest(sig, d, h, order, cfg, now), Replay(sig, id, primary, cfg, rest);
    OmitMeaning(os, k);
    ReplaySums(sig, id, primary, cfg, os);
    ReplaySums(sig, id, primary, cfg, rest);
    KeepsAliases(sig, Origin(id, primary), SetOf(rest), SetOf(os), y, d);
    SplitFrame(sig, d, h, order, cfg, now);
    RestHeat(sig, d, h, order, cfg, now);
    if SameRest(x, y) {
      HeatOfPermutation(x.rows, y.rows, x.sourceCount, x.painHits, Normalize(cfg), now);
      WithoutMeaning(d.rows, h);
      RestCanonicalHeaviest(sig, d, h, order, cfg, now);
      SameElements(x.rows, y.rows);
    }
  }

  /** If the canonical window holds a row, the hash is that of a heaviest one in it. */
  ghost predicate HeaviestNow(rows: seq<Row>, c: Config, now: Time, hash: string) {
    (exists r | r in rows :: Within(r, now, c.canonicalWindow)) ==>
      exists r | r in rows ::
        && r.hash == hash && Within(r, now, c.canonicalWindow)
        && forall q | q in rows && Within(q, now, c.canonicalWindow) :: Weight(q, c, now) <= Weight(r, c, now)
  }

  lemma RestCanonicalHeaviest(sig: Signals, d: Doc, h: string, order: seq<string>, cfg: Config, now: Time)
    requires Shape(d)
    ensures var x := Rest(sig, d, h, order, cfg, now);
            cfg.enabled ==> HeaviestNow(x.rows, Normalize(cfg), now, x.canonical)
  {
    var c, rows := Normalize(cfg), Without(d.rows, h);
    NormalizeIsPositive(cfg);
    WithoutMeaning(d.rows, h);
    BestIsHeaviest(rows, c, now);
    forall r | r in rows ensures r.hash in d.hashes {}
    if q :| q in rows && Within(q, now, c.canonicalWindow) {
      WeightNonNegative(q, c, now);
      var (best, w) := Best(rows, c, now);
      var r :| r in rows && Within(r, now, c.canonicalWindow) && r.hash == best && Weight(r, c, now) == w;
      assert best != "";
    }
  }

  /** The timeline after the split holds exactly the rows of the other sightings. */
  lemma SplitRows(sig: Signals, id: string, primary: Key, cfg: Config, os: seq<Obs>, k: nat)
    requires DistinctSightings(os) && 1 <= |os| <= MAX_SIGHTINGS && k < |os|
    ensures var rows := Without(Replay(sig, id, primary, cfg, os).rows, HashOf(os[k]));
            DistinctHashes(rows) && forall r :: r in rows <==> r in Image(BuildRow, SetOf(Omit(os, k)))
  {
    var d := Replay(sig, id, primary, cfg, os);
    OmitMeaning(os, k);
    ReplaySums(sig, id, primary, cfg, os);
    assert os[k] in SetOf(os);
    SumOfOrigin(sig, Origin(id, primary), SetOf(os), d);
    FullRows(SetOf(os), d.rows);
    RowsLeft(os, k, d.rows);
    WithoutMeaning(d.rows, HashOf(os[k]));
  }

  lemma RowsLeft(os: seq<Obs>, k: nat, rows: seq<Row>)
    requires DistinctSightings(os) && k < |os|
    requires forall r :: r in rows <==> r in Image(BuildRow, SetOf(os))
    ensures forall r :: r in Without(rows, HashOf(os[k])) <==> r in Image(BuildRow, SetOf(Omit(os, k)))
  {
    var h, s, s' := HashOf(os[k]), SetOf(os), SetOf(Omit(os, k));
    OmitMeaning(os, k);
    WithoutMeaning(rows, h);
    forall r
      ensures r in Without(rows, h) <==> r in Image(BuildRow, s')
    {
      if r in Without(rows, h) {
        var o :| o in s && BuildRow(o) == r;
        assert o != os[k];
        assert o in s';
      }
      if r in Image(BuildRow, s') {
        var o :| o in s' && BuildRow(o) == r;
        assert o in s && o != os[k];
        assert r in Image(BuildRow, s);
        assert os[k] in s && HashOf(o) != h;
      }
    }
  }

  /** The new entity holds the detached hash, and only it, exactly when the rebuilt sighting names it. */
  lemma DetachedHoldsHash(sig: Signals, id: string, primary: Key, o: Obs, h: string, cfg: Config, now: Time)
    requires h != "" && Trimmed(h)
    ensures NewDoc(sig, id, primary, o, cfg, now).hashes == [h] <==> Trim(o.hash) == h
  {
    UniqOne(Trim(o.hash));
  }
}
