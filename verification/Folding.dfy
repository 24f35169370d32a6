/**
 * What a run of new sightings amounts to, said without any order:
 * every aggregate of the resulting document as a function of the set of sightings.
 */
module Folding {
  import opened Text
  import opened Lists
  import opened Entity
  import opened Timeline
  import opened HeatScore
  import opened Merging

  // ---------------------------------------------------------------- aggregates of a set of observations

  ghost function Image<T>(f: Obs -> T, s: set<Obs>): set<T> {
    set o | o in s :: f(o)
  }

  ghost function Gather(f: Obs -> set<string>, s: set<Obs>): set<string> {
    set o, a | o in s && a in f(o) :: a
  }

  function HashOf(o: Obs): string { Trim(o.hash) }
  function AliasLabels(o: Obs): set<string> { Labels(AliasTokens(o.keys)) }
  function SourceLabel(o: Obs): set<string> { {Trim(o.source)} - {""} }
  function FamilyLabel(o: Obs): set<string> { {Trim(SourceFamily(o.source))} - {""} }
  function MatchedLabels(o: Obs): set<string> { Labels(o.matched) }
  function StackLabels(o: Obs): set<string> { Labels(o.stack) }
  function BuiltRank(o: Obs): Rank { RankOf(BuildRow(o)) }

  ghost function PainfulOf(sig: Signals, s: set<Obs>): set<Obs> {
    set o | o in s && HasPain(sig, o.text, o.matched)
  }

  ghost function BuyersOf(sig: Signals, s: set<Obs>): set<Obs> {
    set o | o in s && sig.buyer(o.stack, o.text)
  }

  /** f is the earliest of the old bound, if set, and the observed events. */
  ghost predicate Earliest(old_: Time, s: set<Obs>, f: Time) {
    && (forall o | o in s :: f <= EventOf(o))
    && (old_ != 0 ==> f <= old_)
    && (f == old_ || exists o | o in s :: EventOf(o) == f)
    && (s != {} ==> f != 0)
  }

  ghost predicate Latest(old_: Time, s: set<Obs>, l: Time) {
    && (forall o | o in s :: EventOf(o) <= l)
    && old_ <= l
    && (l == old_ || exists o | o in s :: EventOf(o) == l)
  }

  /** The rows are the twenty latest of the old rows and one row per observation. */
  ghost predicate TopRows(base: seq<Row>, s: set<Obs>, rows: seq<Row>) {
    && DistinctHashes(rows)
    && (forall r | r in rows :: r in base || r in Image(BuildRow, s))
    && IsTop(Ranks(rows), Ranks(base) + Image(BuiltRank, s))
  }

  ghost predicate LabelSums(d: Doc, s: set<Obs>, r: Doc) {
    && Elems(r.hashes) == Elems(d.hashes) + Image(HashOf, s)
    && Labels(r.aliases) == Labels(d.aliases) + Gather(AliasLabels, s)
    && Elems(r.sources) == Elems(d.sources) + Gather(SourceLabel, s)
    && Elems(r.families) == Elems(d.families) + Gather(FamilyLabel, s)
    && Elems(r.matched) == Elems(d.matched) + Gather(MatchedLabels, s)
    && Elems(r.stack) == Elems(d.stack) + Gather(StackLabels, s)
  }

  ghost predicate CountSums(sig: Signals, d: Doc, s: set<Obs>, r: Doc) {
    && r.id == d.id && r.primary == d.primary
    && r.sightings == d.sightings + |s| && r.generation == d.generation + |s|
    && r.painHits == d.painHits + |PainfulOf(sig, s)|
    && r.buyerSeen == (d.buyerSeen || BuyersOf(sig, s) != {})
    && (s != {} ==> r.sourceCount == |Elems(r.families)|) && (s == {} ==> r.sourceCount == d.sourceCount)
  }

  /** r is d with the set s of new observations folded in. */
  ghost predicate Sums(sig: Signals, d: Doc, s: set<Obs>, r: Doc) {
    && Shape(r)
    && LabelSums(d, s, r)
    && CountSums(sig, d, s, r)
    && Earliest(d.first, s, r.first) && Latest(d.last, s, r.last)
    && TopRows(d.rows, s, r.rows)
  }

  // ---------------------------------------------------------------- folding one more

  lemma UnionLabels(base: seq<string>, add: seq<string>)
    ensures Labels(Union(base, add)) == Labels(base) + Labels(add)
  {
    if add != [] {
      ScanMeaning({}, base + add);
      NormalLabels(Union(base, add));
      assert Labels(base + add) == Labels(base) + Labels(add);
    } else {
      assert Labels(add) == {};
    }
  }

  lemma AddImage<T>(f: Obs -> T, s: set<Obs>, o: Obs)
    ensures Image(f, s + {o}) == Image(f, s) + {f(o)}
  {
  }

  lemma AddGather(f: Obs -> set<string>, s: set<Obs>, o: Obs, base: set<string>)
    ensures base + Gather(f, s + {o}) == (base + Gather(f, s)) + f(o)
  {
  }

  lemma AddSignals(sig: Signals, s: set<Obs>, o: Obs)
    ensures PainfulOf(sig, s + {o}) == PainfulOf(sig, s) + if HasPain(sig, o.text, o.matched) then {o} else {}
    ensures BuyersOf(sig, s + {o}) == BuyersOf(sig, s) + if sig.buyer(o.stack, o.text) then {o} else {}
  {
  }

  lemma LabelStep(sig: Signals, d: Doc, s: set<Obs>, r: Doc, o: Obs)
    requires Shape(r) && LabelSums(d, s, r) && Trim(o.hash) != ""
    ensures LabelSums(d, s + {o}, Absorb(sig, r, o))
  {
    AbsorbLists(sig, r, o);
    UnionLabels(r.aliases, AliasTokens(o.keys));
    AddImage(HashOf, s, o);
    AddGather(AliasLabels, s, o, Labels(d.aliases));
    AddGather(SourceLabel, s, o, Elems(d.sources));
    AddGather(FamilyLabel, s, o, Elems(d.families));
    AddGather(MatchedLabels, s, o, Elems(d.matched));
    AddGather(StackLabels, s, o, Elems(d.stack));
  }

  lemma CountStep(sig: Signals, d: Doc, s: set<Obs>, r: Doc, o: Obs, r': Doc)
    requires CountSums(sig, d, s, r) && o !in s
    requires r'.id == r.id && r'.primary == r.primary
    requires r'.sightings == r.sightings + 1 && r'.generation == r.generation + 1
    requires r'.painHits == r.painHits + if HasPain(sig, o.text, o.matched) then 1 else 0
    requires r'.buyerSeen == (r.buyerSeen || sig.buyer(o.stack, o.text))
    requires r'.sourceCount == |Elems(r'.families)|
    ensures CountSums(sig, d, s + {o}, r')
  {
    AddSignals(sig, s, o);
    assert o !in PainfulOf(sig, s);
  }

  lemma RowsStep(base: seq<Row>, s: set<Obs>, rows: seq<Row>, o: Obs)
    requires TopRows(base, s, rows) && Trim(o.hash) != "" && Trim(o.hash) !in Hashes(rows)
    ensures TopRows(base, s + {o}, Record(rows, o))
    ensures |Record(rows, o)| <= MAX_SIGHTINGS
    ensures forall r | r in Record(rows, o) :: r in rows || r == BuildRow(o)
  {
    var b := BuildRow(o);
    AppendDistinct(rows, b);
    TrimKeepsTop(rows + [b]);
    assert IndexOfHash(rows, Trim(o.hash)) == |rows| by {
      forall i | 0 <= i < |rows| ensures rows[i].hash in Hashes(rows) {}
    }
    AddImage(BuildRow, s, o);
    TopRanksStep(base, s, Ranks(rows), o, Ranks(Record(rows, o)));
  }

  lemma TopRanksStep(base: seq<Row>, s: set<Obs>, t: set<Rank>, o: Obs, t2: set<Rank>)
    requires IsTop(t, Ranks(base) + Image(BuiltRank, s)) && IsTop(t2, t + {BuiltRank(o)})
    ensures IsTop(t2, Ranks(base) + Image(BuiltRank, s + {o}))
  {
    AddImage(BuiltRank, s, o);
    TopExtend(t, Ranks(base) + Image(BuiltRank, s), BuiltRank(o), t2);
    assert Ranks(base) + Image(BuiltRank, s) + {BuiltRank(o)} == Ranks(base) + Image(BuiltRank, s + {o});
  }

  lemma BoundStep(d: Doc, s: set<Obs>, r: Doc, o: Obs)
    requires Earliest(d.first, s, r.first) && Latest(d.last, s, r.last) && EventOf(o) != 0
    ensures Earliest(d.first, s + {o}, Earlier(r.first, EventOf(o)))
    ensures Latest(d.last, s + {o}, Later(r.last, EventOf(o)))
  {
    assert o in s + {o};
  }

  lemma SumsStep(sig: Signals, d: Doc, s: set<Obs>, r: Doc, o: Obs, cfg: Config, now: Time)
    requires Sums(sig, d, s, r) && o !in s
    requires Trim(o.hash) != "" && !HashKnown(r, Trim(o.hash)) && EventOf(o) != 0
    ensures Sums(sig, d, s + {o}, Merge(sig, r, o, cfg, now))
  {
    LabelStep(sig, d, s, r, o);
    AbsorbLists(sig, r, o);
    NoDupSize(Absorb(sig, r, o).families);
    CountStep(sig, d, s, r, o, Absorb(sig, r, o));
    assert Trim(o.hash) !in Hashes(r.rows);
    RowsStep(d.rows, s, r.rows, o);
    BoundStep(d, s, r, o);
    AbsorbShape(sig, r, o);
    RecomputeFrame(Absorb(sig, r, o), cfg, now, o.clock.atHeat);
  }

  lemma AbsorbShape(sig: Signals, d: Doc, o: Obs)
    requires Shape(d) && Trim(o.hash) != "" && !HashKnown(d, Trim(o.hash))
    ensures Shape(Absorb(sig, d, o))
  {
    var d' := Absorb(sig, d, o);
    AbsorbLists(sig, d, o);
    RecordMeaning(d.rows, o);
    forall r | r in d'.rows
      ensures r.hash in d'.hashes
    {
      assert Trim(o.hash) in Elems(d'.hashes);
      if r in d.rows {
        assert r.hash in Elems(d.hashes);
      }
      assert r.hash in Elems(d'.hashes);
    }
  }

  // ---------------------------------------------------------------- whole folds

  function MergeAll(sig: Signals, d: Doc, os: seq<Obs>, cfg: Config, now: Time): Doc {
    if os == [] then d
    else Merge(sig, MergeAll(sig, d, os[..|os| - 1], cfg, now), os[|os| - 1], cfg, now)
  }

  function SetOf(os: seq<Obs>): set<Obs> {
    set o | o in os
  }

  /** Sightings the document has not seen, each with its own hash. */
  predicate Unseen(d: Doc, os: seq<Obs>) {
    && (forall i, j :: 0 <= i < j < |os| ==> Trim(os[i].hash) != Trim(os[j].hash))
    && forall o | o in os :: Trim(o.hash) != "" && Trim(o.hash) !in d.hashes && EventOf(o) != 0
  }

  /** The last of a run of unseen sightings is still unseen after all the others. */
  lemma UnseenLast(d: Doc, os: seq<Obs>, r: Doc)
    requires Unseen(d, os) && os != []
    requires Elems(r.hashes) == Elems(d.hashes) + Image(HashOf, SetOf(os[..|os| - 1]))
    ensures var o, s := os[|os| - 1], SetOf(os[..|os| - 1]);
            o !in s && SetOf(os) == s + {o} && !HashKnown(r, Trim(o.hash)) && Unseen(d, os[..|os| - 1])
  {
    var before, o := os[..|os| - 1], os[|os| - 1];
    var h := HashOf(o);
    assert h !in Image(HashOf, SetOf(before)) by {
      forall p | p in before ensures HashOf(p) != h {}
    }
    assert os == before + [o];
    assert h !in Elems(r.hashes);
  }

  lemma SumsNothing(sig: Signals, d: Doc)
    requires Shape(d)
    ensures Sums(sig, d, {}, d)
  {
    assert PainfulOf(sig, {}) == {} && BuyersOf(sig, {}) == {};
    assert Ranks(d.rows) + Image(BuiltRank, {}) == Ranks(d.rows);
    DistinctSize(d.rows);
  }

  /** Folding any sequence of unseen sightings gives the aggregates of their set. */
  lemma {:induction false} FoldSums(sig: Signals, d: Doc, os: seq<Obs>, cfg: Config, now: Time)
    requires Shape(d) && Unseen(d, os)
    ensures Sums(sig, d, SetOf(os), MergeAll(sig, d, os, cfg, now))
  {
    if os == [] {
      SumsNothing(sig, d);
      assert SetOf(os) == {};
    } else {
      var before, o := os[..|os| - 1], os[|os| - 1];
      var r := MergeAll(sig, d, before, cfg, now);
      FoldSums(sig, d, before, cfg, now);
      UnseenLast(d, os, r);
      SumsStep(sig, d, SetOf(before), r, o, cfg, now);
    }
  }

  /** The heat of a fold is the heat of its rows: nothing of the order the rows came in is left in it. */
  lemma FoldHeat(sig: Signals, d: Doc, os: seq<Obs>, cfg: Config, now: Time)
    requires Shape(d) && Unseen(d, os) && os != [] && now != 0
    ensures var r := MergeAll(sig, d, os, cfg, now);
            cfg.enabled ==> r.heat == HeatOf(r.rows, r.sourceCount, r.painHits, Normalize(cfg), now)
  {
    var before, o := os[..|os| - 1], os[|os| - 1];
    FoldSums(sig, d, before, cfg, now);
    UnseenLast(d, os, MergeAll(sig, d, before, cfg, now));
  }

  lemma {:induction false} FoldHeatDisabled(sig: Signals, d: Doc, os: seq<Obs>, cfg: Config, now: Time)
    requires Shape(d) && Unseen(d, os) && !cfg.enabled
    ensures MergeAll(sig, d, os, cfg, now).heat == d.heat
  {
    if os != [] {
      var before, o := os[..|os| - 1], os[|os| - 1];
      FoldHeatDisabled(sig, d, before, cfg, now);
      FoldSums(sig, d, before, cfg, now);
      UnseenLast(d, os, MergeAll(sig, d, before, cfg, now));
    }
  }

  // ---------------------------------------------------------------- order does not matter

  /** Equal up to the order of lists and rows, and up to the canonical hash. */
  ghost predicate SameEntity(a: Doc, b: Doc) {
    && a.id == b.id && a.primary == b.primary && a.generation == b.generation
    && Elems(a.hashes) == Elems(b.hashes) && Labels(a.aliases) == Labels(b.aliases)
    && Elems(a.sources) == Elems(b.sources) && Elems(a.families) == Elems(b.families)
    && Elems(a.matched) == Elems(b.matched) && Elems(a.stack) == Elems(b.stack)
    && multiset(a.rows) == multiset(b.rows)
    && a.sightings == b.sightings && a.sourceCount == b.sourceCount && a.painHits == b.painHits
    && a.buyerSeen == b.buyerSeen && a.first == b.first && a.last == b.last
  }

  lemma {:induction false} SameRowsPermute(a: seq<Row>, b: seq<Row>)
    requires DistinctHashes(a) && DistinctHashes(b) && forall r :: r in a <==> r in b
    ensures multiset(a) == multiset(b)
  {
    forall r
      ensures multiset(a)[r] == multiset(b)[r]
    {
      AtMostOnce(a, r);
      AtMostOnce(b, r);
    }
  }

  lemma {:induction false} AtMostOnce(a: seq<Row>, r: Row)
    requires DistinctHashes(a)
    ensures multiset(a)[r] == if r in a then 1 else 0
  {
    if r in a {
      var i :| 0 <= i < |a| && a[i] == r;
      assert a == a[..i] + [r] + a[i + 1..];
      assert r !in a[..i] && r !in a[i + 1..];
    }
  }

  /** Old rows and new rows never share a rank unless they are the same row. */
  lemma RowsDetermined(base: seq<Row>, s: set<Obs>, a: seq<Row>, b: seq<Row>)
    requires TopRows(base, s, a) && TopRows(base, s, b) && DistinctHashes(base)
    requires forall o | o in s :: Trim(o.hash) !in Hashes(base)
    requires forall o, p | o in s && p in s && Trim(o.hash) == Trim(p.hash) :: o == p
    ensures multiset(a) == multiset(b)
  {
    TopUnique(Ranks(a), Ranks(b), Ranks(base) + Image(BuiltRank, s));
    forall r
      ensures r in a <==> r in b
    {
      if r in a && r !in b { RowDetermined(base, s, r, a, b); }
      if r in b && r !in a { RowDetermined(base, s, r, b, a); }
    }
    SameRowsPermute(a, b);
  }

  lemma RowDetermined(base: seq<Row>, s: set<Obs>, r: Row, a: seq<Row>, b: seq<Row>)
    requires r in a && Ranks(a) == Ranks(b) && DistinctHashes(base)
    requires forall q | q in a || q in b :: q in base || q in Image(BuildRow, s)
    requires forall o | o in s :: Trim(o.hash) !in Hashes(base)
    requires forall o, p | o in s && p in s && Trim(o.hash) == Trim(p.hash) :: o == p
    ensures r in b
  {
    assert RankOf(r) in Ranks(b);
    var q :| q in b && RankOf(q) == RankOf(r);
    assert q.hash == r.hash;
    if r in base && q in base {
      assert q == r;
    }
  }

  lemma SumsDetermine(sig: Signals, d: Doc, s: set<Obs>, a: Doc, b: Doc)
    requires Shape(d) && Sums(sig, d, s, a) && Sums(sig, d, s, b)
    requires forall o | o in s :: Trim(o.hash) !in d.hashes
    requires forall o, p | o in s && p in s && Trim(o.hash) == Trim(p.hash) :: o == p
    ensures SameEntity(a, b)
  {
    forall o | o in s ensures Trim(o.hash) !in Hashes(d.rows) {}
    RowsDetermined(d.rows, s, a.rows, b.rows);
    BoundsDetermined(d, s, a, b);
  }

  lemma BoundsDetermined(d: Doc, s: set<Obs>, a: Doc, b: Doc)
    requires Earliest(d.first, s, a.first) && Earliest(d.first, s, b.first)
    requires Latest(d.last, s, a.last) && Latest(d.last, s, b.last)
    ensures a.first == b.first && a.last == b.last
  {
  }

  lemma {:induction false} UnseenSet(d: Doc, os: seq<Obs>)
    requires Unseen(d, os)
    ensures forall o, p | o in SetOf(os) && p in SetOf(os) && Trim(o.hash) == Trim(p.hash) :: o == p
    ensures |SetOf(os)| == |os|
    decreases |os|
  {
    if os != [] {
      var rest := os[1..];
      UnseenSet(d, rest);
      assert os == [os[0]] + rest;
      assert SetOf(os) == {os[0]} + SetOf(rest);
      forall p | p in rest ensures Trim(p.hash) != Trim(os[0].hash) {}
    }
  }

  lemma {:induction false} OnlyOnce(d: Doc, xs: seq<Obs>, o: Obs)
    requires Unseen(d, xs) && o in xs
    ensures multiset(xs)[o] == 1
  {
    var i :| 0 <= i < |xs| && xs[i] == o;
    assert xs == xs[..i] + [o] + xs[i + 1..];
    assert o !in xs[..i] && o !in xs[i + 1..];
  }

  lemma UnseenPermuted(d: Doc, xs: seq<Obs>, ys: seq<Obs>)
    requires Unseen(d, xs) && multiset(xs) == multiset(ys)
    ensures Unseen(d, ys) && SetOf(xs) == SetOf(ys) && |xs| == |ys|
  {
    assert |multiset(xs)| == |xs| && |multiset(ys)| == |ys|;
    forall o ensures o in xs <==> o in ys {
      assert o in multiset(xs) <==> o in multiset(ys);
    }
    UnseenSet(d, xs);
    forall i, j | 0 <= i < j < |ys|
      ensures Trim(ys[i].hash) != Trim(ys[j].hash)
    {
      OnlyOnce(d, xs, ys[i]);
      Twice(ys, i, j);
      assert ys[i] in SetOf(xs) && ys[j] in SetOf(xs);
    }
  }

  lemma Twice(ys: seq<Obs>, i: nat, j: nat)
    requires i < j < |ys|
    ensures ys[i] == ys[j] ==> multiset(ys)[ys[i]] >= 2
  {
    assert ys == ys[..j] + [ys[j]] + ys[j + 1..];
    assert ys[i] in ys[..j];
  }

  /**
   * Merge order does not matter: the same unseen sightings folded onto the same document in
   * any two orders, at one instant, give the same entity and the same heat.
   */
  lemma OrderIndependence(sig: Signals, d: Doc, xs: seq<Obs>, ys: seq<Obs>, cfg: Config, now: Time)
    requires Shape(d) && Unseen(d, xs) && multiset(xs) == multiset(ys) && now != 0
    ensures SameEntity(MergeAll(sig, d, xs, cfg, now), MergeAll(sig, d, ys, cfg, now))
    ensures MergeAll(sig, d, xs, cfg, now).heat == MergeAll(sig, d, ys, cfg, now).heat
  {
    var a, b := MergeAll(sig, d, xs, cfg, now), MergeAll(sig, d, ys, cfg, now);
    UnseenPermuted(d, xs, ys);
    FoldSums(sig, d, xs, cfg, now);
    FoldSums(sig, d, ys, cfg, now);
    UnseenSet(d, xs);
    SumsDetermine(sig, d, SetOf(xs), a, b);
    if xs != [] && cfg.enabled {
      FoldHeat(sig, d, xs, cfg, now);
      FoldHeat(sig, d, ys, cfg, now);
      HeatOfPermutation(a.rows, b.rows, a.sourceCount, a.painHits, Normalize(cfg), now);
    } else if xs != [] {
      FoldHeatDisabled(sig, d, xs, cfg, now);
      FoldHeatDisabled(sig, d, ys, cfg, now);
    }
  }
}
