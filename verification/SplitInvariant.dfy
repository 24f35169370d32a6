/** When the document a split leaves behind still satisfies the document invariant. */
module SplitInvariant {
  import opened Text
  import opened Lists
  import opened Entity
  import opened Timeline
  import opened HeatScore
  import opened Merging
  import opened Splitting
  import opened SplitLaws

  /** Some row is left, and none lacks an instant unless another one lies before the zero time. */
  predicate Datable(rows: seq<Row>) {
    rows != [] && forall r | r in rows :: Event(r) != 0 || exists q | q in rows :: Event(q) < 0
  }

  /**
   * The canonical hash is chosen anew by heat, or was the detached one and falls to a remaining hash,
   * or still has its row. Otherwise it names a trimmed hash, which the split forgets.
   */
  predicate CanonicalSurvives(d: Doc, h: string, cfg: Config, now: Time) {
    var rows := Without(d.rows, h);
    || (cfg.enabled && exists r | r in rows :: Within(r, now, Normalize(cfg).canonicalWindow))
    || d.canonical == h
    || exists r | r in rows :: r.hash == d.canonical
  }

  /** Every row's hash is a stored one, trimmed and not blank. */
  lemma RestHashes(d: Doc, h: string, order: seq<string>)
    requires Shape(d) && ListsHashesOf(order, Without(d.rows, h))
    ensures var rows := Without(d.rows, h);
            && DistinctHashes(rows) && |rows| <= MAX_SIGHTINGS && |order| == |rows|
            && Elems(order) == Hashes(rows) && Normal(order) && forall r | r in rows :: r.hash != ""
  {
    var rows := Without(d.rows, h);
    WithoutMeaning(d.rows, h);
    RemainingHashes(d, h, order);
    DistinctSize(rows);
    DistinctSize(d.rows);
    assert Hashes(rows) == Hashes(d.rows) - {h};
    SubsetSize(Hashes(rows), Hashes(d.rows));
    forall r | r in rows ensures r.hash in d.hashes {}
    forall x | x in order ensures x in Elems(d.hashes) {
      assert x in Elems(order);
    }
    forall x | x in order ensures x in d.hashes {
      assert x in Elems(d.hashes);
    }
  }

  lemma RestShape(sig: Signals, d: Doc, h: string, order: seq<string>, cfg: Config, now: Time)
    requires Shape(d) && ListsHashesOf(order, Without(d.rows, h))
    ensures Shape(Rest(sig, d, h, order, cfg, now))
  {
    RestHashes(d, h, order);
    RestFields(sig, d, h, order, cfg, now);
    SplitFrame(sig, d, h, order, cfg, now);
    RebuildLabels(sig, Without(d.rows, h));
    forall r | r in Without(d.rows, h) ensures r.hash in order {
      assert r.hash in Elems(order);
    }
  }

  lemma {:induction false} PainAtMost(sig: Signals, rows: seq<Row>)
    ensures 0 <= Rebuild(sig, rows).painHits <= |rows|
  {
    if rows != [] {
      var before, r := rows[..|rows| - 1], rows[|rows| - 1];
      assert rows == before + [r];
      PainAtMost(sig, before);
      RebuildSnoc(sig, before, r);
      PainStep(sig, Rebuild(sig, before), r);
    }
  }

  lemma PainStep(sig: Signals, a: Agg, r: Row)
    ensures a.painHits <= AggStep(sig, a, r).painHits <= a.painHits + 1
  {
  }

  lemma RestCounted(sig: Signals, d: Doc, h: string, order: seq<string>, cfg: Config, now: Time)
    requires Shape(d) && ListsHashesOf(order, Without(d.rows, h))
    ensures var x := Rest(sig, d, h, order, cfg, now); Counted(x) <==> x.canonical in order
  {
    RestHashes(d, h, order);
    RestFields(sig, d, h, order, cfg, now);
    PainAtMost(sig, Without(d.rows, h));
  }

  lemma RestBounded(sig: Signals, d: Doc, h: string, order: seq<string>, cfg: Config, now: Time)
    requires Without(d.rows, h) != []
    ensures Bounded(Rest(sig, d, h, order, cfg, now)) <==> Datable(Without(d.rows, h))
  {
    RestFields(sig, d, h, order, cfg, now);
    BoundsOfRebuild(sig, Without(d.rows, h));
  }

  lemma BoundsOfRebuild(sig: Signals, rows: seq<Row>)
    requires rows != []
    ensures var a := Rebuild(sig, rows);
            (a.first != 0 && a.first <= a.last && forall r | r in rows :: a.first <= Event(r) <= a.last)
            <==> Datable(rows)
  {
    var a, es := Rebuild(sig, rows), RowEvents(rows);
    RebuildBounds(sig, rows);
    forall r | r in rows && Event(r) != 0 ensures Event(r) in es {}
    assert rows[0] in rows;
    if Datable(rows) {
      assert es != {};
      assert a.first in es;
    } else {
      var r :| r in rows && Event(r) == 0 && forall q | q in rows :: Event(q) >= 0;
      if es != {} {
        assert a.first in es;
      }
    }
  }

  lemma RestCanonical(sig: Signals, d: Doc, h: string, order: seq<string>, cfg: Config, now: Time)
    requires Shape(d) && ListsHashesOf(order, Without(d.rows, h))
    requires Without(d.rows, h) != [] && d.canonical != "" && h != ""
    ensures Rest(sig, d, h, order, cfg, now).canonical in order <==> CanonicalSurvives(d, h, cfg, now)
  {
    var rows, c := Without(d.rows, h), Normalize(cfg);
    RestHashes(d, h, order);
    ChosenRow(rows, cfg, now);
    ListedRows(rows, order);
    RestCanonicalIs(sig, d, h, order, cfg, now);
    assert order[0] in order;
  }

  lemma ListedRows(rows: seq<Row>, order: seq<string>)
    requires Elems(order) == Hashes(rows)
    ensures forall x :: x in order <==> exists r | r in rows :: r.hash == x
  {
    forall x ensures x in order <==> exists r | r in rows :: r.hash == x {
      assert x in order <==> x in Elems(order);
      assert x in Hashes(rows) <==> exists r | r in rows :: r.hash == x;
    }
  }

  lemma RestCanonicalIs(sig: Signals, d: Doc, h: string, order: seq<string>, cfg: Config, now: Time)
    requires order != []
    ensures var best := Best(Without(d.rows, h), Normalize(cfg), now).0;
            var kept := if d.canonical == h then "" else d.canonical;
            Rest(sig, d, h, order, cfg, now).canonical ==
            if cfg.enabled && best != "" then best else if kept == "" then order[0] else kept
  {
  }

  /** Heat chooses a row's hash exactly if the window holds a row. */
  lemma ChosenRow(rows: seq<Row>, cfg: Config, now: Time)
    requires forall r | r in rows :: r.hash != ""
    ensures var c := Normalize(cfg);
            var best := Best(rows, c, now).0;
            && (best != "" <==> exists r | r in rows :: Within(r, now, c.canonicalWindow))
            && (best != "" ==> exists r | r in rows :: r.hash == best)
  {
    var c := Normalize(cfg);
    NormalizeIsPositive(cfg);
    BestIsHeaviest(rows, c, now);
    if q :| q in rows && Within(q, now, c.canonicalWindow) {
      WeightNonNegative(q, c, now);
    }
  }

  /**
   * The rest of a split satisfies the document invariant exactly if it has rows it can date and the canonical
   * hash does not name a trimmed one.
   */
  lemma SplitKeepsInvariant(sig: Signals, d: Doc, h: string, order: seq<string>, cfg: Config, now: Time)
    requires DocInv(d) && h in d.hashes && ListsHashesOf(order, Without(d.rows, h))
    ensures DocInv(Rest(sig, d, h, order, cfg, now)) <==>
            Datable(Without(d.rows, h)) && CanonicalSurvives(d, h, cfg, now)
  {
    RestShape(sig, d, h, order, cfg, now);
    RestCounted(sig, d, h, order, cfg, now);
    if Without(d.rows, h) == [] {
      RestHashes(d, h, order);
    } else {
      RestBounded(sig, d, h, order, cfg, now);
      RestCanonical(sig, d, h, order, cfg, now);
    }
  }
}
