/** Detaching one hash from an entity, against never having merged it. */
module Splitting {
  import opened Text
  import opened Lists
  import opened Entity
  import opened Timeline
  import opened HeatScore
  import opened Merging
  import opened Folding
  import opened Replaying
  import opened Keys
  import opened InPlace

  // ---------------------------------------------------------------- the rebuild

  /** What rebuildEntityAggregates accumulates over the remaining rows. */
  datatype Agg = Agg(
    sources: seq<string>, families: seq<string>, matched: seq<string>,
    painHits: int, buyerSeen: bool, first: Time, last: Time)

  const NOTHING := Agg([], [], [], 0, false, 0, 0)

  /** The family a row contributes: its stored one, or the one its source names. */
  function RowLabel(r: Row): string {
    if Trim(r.family) != "" then Trim(r.family) else SourceFamily(r.source)
  }

  function AggStep(sig: Signals, a: Agg, r: Row): Agg {
    var src, e := Trim(r.source), Event(r);
    Agg(if src != "" then Union(a.sources, [src]) else a.sources,
        if RowLabel(r) != "" then Union(a.families, [RowLabel(r)]) else a.families,
        Union(a.matched, r.matched),
        a.painHits + if HasPain(sig, r.snippet, r.matched) then 1 else 0,
        a.buyerSeen || sig.buyer([], r.snippet),
        if e != 0 then Earlier(a.first, e) else a.first,
        if e != 0 then Later(a.last, e) else a.last)
  }

  function Rebuild(sig: Signals, rows: seq<Row>): Agg {
    if rows == [] then NOTHING else AggStep(sig, Rebuild(sig, rows[..|rows| - 1]), rows[|rows| - 1])
  }

  lemma RebuildSnoc(sig: Signals, rows: seq<Row>, r: Row)
    ensures Rebuild(sig, rows + [r]) == AggStep(sig, Rebuild(sig, rows), r)
  {
    assert (rows + [r])[..|rows|] == rows;
  }

  function Without(rows: seq<Row>, h: string): seq<Row> {
    if rows == [] then []
    else
      var before, r := Without(rows[..|rows| - 1], h), rows[|rows| - 1];
      if r.hash == h then before else before + [r]
  }

  function DropHash(hashes: seq<string>, h: string): seq<string> {
    if hashes == [] then []
    else
      var before, x := DropHash(hashes[..|hashes| - 1], h), hashes[|hashes| - 1];
      if x == h then before else before + [x]
  }

  function RowHashes(rows: seq<Row>): set<string> {
    (set r | r in rows :: Trim(r.hash)) - {""}
  }

  lemma RowHashesSnoc(rows: seq<Row>, r: Row)
    ensures RowHashes(rows + [r]) == RowHashes(rows) + ({Trim(r.hash)} - {""})
  {
  }

  /** A duplicate-free listing, in any order, of the hashes the rows carry. */
  ghost predicate ListsHashesOf(order: seq<string>, rows: seq<Row>) {
    NoDup(order) && Elems(order) == RowHashes(rows)
  }

  /** The document with rebuilt aggregates; an empty canonical hash falls to the first listed one. */
  function Adopt(d: Doc, a: Agg, order: seq<string>): Doc {
    AdoptSignals(AdoptLabels(AdoptHashes(d, order), a), a)
  }

  function AdoptHashes(d: Doc, order: seq<string>): Doc {
    d.(hashes := order, sightings := |order|,
       canonical := if d.canonical == "" && order != [] then order[0] else d.canonical)
  }

  function AdoptLabels(d: Doc, a: Agg): Doc {
    d.(sources := a.sources, families := a.families, sourceCount := |a.families|, matched := a.matched)
  }

  function AdoptSignals(d: Doc, a: Agg): Doc {
    d.(painHits := a.painHits, buyerSeen := a.buyerSeen, first := a.first, last := a.last)
  }

  /**
   * The source document after the split; `order` is the order in which the code's hash set
   * happened to be listed. Aliases and stack stay as they were.
   */
  function Rest(sig: Signals, d: Doc, h: string, order: seq<string>, cfg: Config, now: Time): Doc {
    var cleared := d.(rows := Without(d.rows, h), generation := d.generation + 1, review := NO_REVIEW,
                      canonical := if d.canonical == h then "" else d.canonical);
    Recompute(Adopt(cleared, Rebuild(sig, cleared.rows), order), cfg, now, now)
  }

  // ---------------------------------------------------------------- in place

  datatype SplitError = EntityMissing | HashEmpty | HashMissing | KeysEmpty

  datatype SplitOutcome =
    | Failed(error: SplitError)
    | Detached(sourceID: string, newID: string, hash: string, sourceDeleted: bool)

  /** removeHashFromEntity */
  method RemoveHash(doc: EntityDoc, h: string)
    modifies doc
    ensures var d := old(doc.View());
            doc.View() == d.(hashes := DropHash(d.hashes, h), rows := Without(d.rows, h),
                             canonical := if d.canonical == h then "" else d.canonical)
  {
    doc.hashes := RemoveString(doc.hashes, h);
    doc.rows := RemoveRows(doc.rows, h);
    if doc.canonical == h {
      doc.canonical := "";
    }
  }

  /** removeString */
  method RemoveString(hashes: seq<string>, h: string) returns (kept: seq<string>)
    ensures kept == DropHash(hashes, h)
  {
    kept := [];
    for i := 0 to |hashes|
      invariant kept == DropHash(hashes[..i], h)
    {
      assert hashes[..i + 1][..i] == hashes[..i];
      if hashes[i] != h {
        kept := kept + [hashes[i]];
      }
    }
    assert hashes[..|hashes|] == hashes;
  }

  method RemoveRows(rows: seq<Row>, h: string) returns (remaining: seq<Row>)
    ensures remaining == Without(rows, h)
  {
    remaining := [];
    for i := 0 to |rows|
      invariant remaining == Without(rows[..i], h)
    {
      assert rows[..i + 1][..i] == rows[..i];
      if rows[i].hash == h {
        continue;
      }
      remaining := remaining + [rows[i]];
    }
    assert rows[..|rows|] == rows;
  }

  /** The aggregates and the hash set of the first i rows. */
  ghost predicate Gathered(sig: Signals, rows: seq<Row>, i: nat, a: Agg, hashSet: set<string>)
    requires i <= |rows|
  {
    a == Rebuild(sig, rows[..i]) && hashSet == RowHashes(rows[..i])
  }

  lemma GatheredEnds(sig: Signals, rows: seq<Row>, a: Agg, hashSet: set<string>)
    ensures Gathered(sig, rows, 0, NOTHING, {})
    ensures Gathered(sig, rows, |rows|, a, hashSet) ==> a == Rebuild(sig, rows) && hashSet == RowHashes(rows)
  {
    assert rows[..|rows|] == rows && rows[..0] == [];
  }

  lemma GatheredNext(sig: Signals, rows: seq<Row>, i: nat, a: Agg, hashSet: set<string>, r: Row)
    requires i < |rows| && Gathered(sig, rows, i, a, hashSet) && r == rows[i]
    ensures Gathered(sig, rows, i + 1, AggStep(sig, a, r), hashSet + ({Trim(r.hash)} - {""}))
  {
    assert rows[..i + 1] == rows[..i] + [r];
    RowHashesSnoc(rows[..i], r);
    RebuildSnoc(sig, rows[..i], r);
  }

  /** The accumulation loop of rebuildEntityAggregates, with the hash set it collects on the way. */
  method Accumulate(sig: Signals, rows: seq<Row>) returns (a: Agg, hashSet: set<string>)
    ensures a == Rebuild(sig, rows)
    ensures hashSet == RowHashes(rows)
  {
    a, hashSet := NOTHING, {};
    GatheredEnds(sig, rows, a, hashSet);
    for i := 0 to |rows|
      invariant Gathered(sig, rows, i, a, hashSet)
    {
      GatheredNext(sig, rows, i, a, hashSet, rows[i]);
      hashSet := AddHash(hashSet, rows[i]);
      a := AccumulateRow(sig, a, rows[i]);
    }
    GatheredEnds(sig, rows, a, hashSet);
  }

  method AddHash(hashSet0: set<string>, r: Row) returns (hashSet: set<string>)
    ensures hashSet == hashSet0 + ({Trim(r.hash)} - {""})
  {
    hashSet := hashSet0;
    if Trim(r.hash) != "" {
      hashSet := hashSet + {Trim(r.hash)};
    }
  }

  /** One turn of the loop. */
  method AccumulateRow(sig: Signals, a0: Agg, r: Row) returns (a: Agg)
    ensures a == AggStep(sig, a0, r)
  {
    var sources, families := a0.sources, a0.families;
    var src, family := Trim(r.source), Trim(r.family);
    if src != "" {
      sources := UnionStrings(sources, [src]);
    }
    if family != "" {
      families := UnionStrings(families, [family]);
    } else if SourceFamily(r.source) != "" {
      families := UnionStrings(families, [SourceFamily(r.source)]);
    }
    var matched := UnionStrings(a0.matched, r.matched);
    var painHits := a0.painHits;
    if HasPain(sig, r.snippet, r.matched) {
      painHits := painHits + 1;
    }
    var first, last, event := a0.first, a0.last, Event(r);
    if event != 0 {
      if first == 0 || event < first {
        first := event;
      }
      if event > last {
        last := event;
      }
    }
    a := Agg(sources, families, matched, painHits, a0.buyerSeen || sig.buyer([], r.snippet), first, last);
  }

  /** Listing a Go map's keys: each once, in an order the code does not control. */
  method ListHashes(hashSet: set<string>) returns (order: seq<string>)
    ensures NoDup(order) && Elems(order) == hashSet
  {
    order := [];
    var left := hashSet;
    while left != {}
      invariant NoDup(order) && Elems(order) == hashSet - left && left <= hashSet
      decreases |left|
    {
      var h :| h in left;
      assert h !in Elems(order);
      assert Elems(order + [h]) == Elems(order) + {h};
      order, left := order + [h], left - {h};
    }
  }

  /** rebuildEntityAggregates */
  method RebuildAggregates(sig: Signals, doc: EntityDoc, cfg: Config, now: Time)
    modifies doc
    ensures ListsHashesOf(doc.hashes, doc.rows)
    ensures doc.View() == Recompute(Adopt(old(doc.View()), Rebuild(sig, old(doc.rows)), doc.hashes), cfg, now, now)
  {
    var a, hashSet := Accumulate(sig, doc.rows);
    var order := ListHashes(hashSet);
    StoreHashes(doc, order);
    StoreLabels(doc, a);
    StoreSignals(doc, a);
    doc.RecomputeHeat(cfg, now, now);
  }

  method StoreHashes(doc: EntityDoc, order: seq<string>)
    modifies doc
    ensures doc.View() == AdoptHashes(old(doc.View()), order)
  {
    doc.hashes := order;
    doc.sightings := |doc.hashes|;
    if doc.canonical == "" && |doc.hashes| > 0 {
      doc.canonical := doc.hashes[0];
    }
  }

  method StoreLabels(doc: EntityDoc, a: Agg)
    modifies doc
    ensures doc.View() == AdoptLabels(old(doc.View()), a)
  {
    doc.sources, doc.families, doc.matched := a.sources, a.families, a.matched;
    doc.sourceCount := |doc.families|;
  }

  method StoreSignals(doc: EntityDoc, a: Agg)
    modifies doc
    ensures doc.View() == AdoptSignals(old(doc.View()), a)
  {
    doc.painHits, doc.buyerSeen, doc.first, doc.last := a.painHits, a.buyerSeen, a.first, a.last;
  }

  /** The part of SplitHashFromEntity that works on the source document. */
  method DetachHash(sig: Signals, doc: EntityDoc, h: string, cfg: Config, now: Time)
    modifies doc
    ensures ListsHashesOf(doc.hashes, doc.rows)
    ensures doc.View() == Rest(sig, old(doc.View()), h, doc.hashes, cfg, now)
  {
    RemoveHash(doc, h);
    doc.generation := doc.generation + 1;
    doc.review := NO_REVIEW;
    ghost var cleared := doc.View();
    RebuildAggregates(sig, doc, cfg, now);
    OverwritesHashes(cleared, Rebuild(sig, cleared.rows), doc.hashes, old(doc.hashes));
  }

  lemma OverwritesHashes(d: Doc, a: Agg, order: seq<string>, other: seq<string>)
    ensures Adopt(d, a, order) == Adopt(d.(hashes := other), a, order)
  {
  }

  /** SplitHashFromEntity; `o.keys` are the resolved keys of the detached lead. */
  method SplitHashFromEntity(
      sig: Signals, digest: string -> string, doc: EntityDoc?, hash: string, o: Obs, cfg: Config, now: Time)
    returns (out: SplitOutcome, newDoc: EntityDoc?)
    modifies doc
    ensures out.Failed? ==> newDoc == null && (doc != null ==> doc.View() == old(doc.View()))
    ensures out.Failed? <==>
            (doc == null || Trim(hash) == "" || Trim(hash) !in old(doc.hashes) || o.keys == []
             || EntityIDForSplit(digest, o.keys, Trim(hash), doc.id) == "")
    ensures out.Failed? ==>
            out.error == (if doc == null then EntityMissing else if Trim(hash) == "" then HashEmpty
                          else if Trim(hash) !in old(doc.hashes) then HashMissing else KeysEmpty)
    ensures out.Detached? ==>
            && doc != null && newDoc != null
            && ListsHashesOf(doc.hashes, doc.rows)
            && doc.View() == Rest(sig, old(doc.View()), Trim(hash), doc.hashes, cfg, now)
            && newDoc.View() == NewDoc(sig, out.newID, o.keys[0], o, cfg, now)
            && var newID := EntityIDForSplit(digest, o.keys, Trim(hash), doc.id);
               out == Detached(doc.id, newID, Trim(hash), doc.hashes == [])
  {
    newDoc := null;
    if doc == null {
      return Failed(EntityMissing), null;
    }
    var h := Trim(hash);
    if h == "" {
      return Failed(HashEmpty), null;
    }
    if h !in doc.hashes {
      return Failed(HashMissing), null;
    }
    if |o.keys| == 0 {
      return Failed(KeysEmpty), null;
    }
    var newID := EntityIDForSplit(digest, o.keys, h, doc.id);
    if newID == "" {
      return Failed(KeysEmpty), null;
    }
    DetachHash(sig, doc, h, cfg, now);
    newDoc := new EntityDoc(sig, newID, o.keys[0], o, cfg, now);
    out := Detached(doc.id, newID, h, |doc.hashes| == 0);
  }
}
