/** Every field of a document after its first sighting, after a new hash and after a known one. */
module MergeLaws {
  import opened Text
  import opened Lists
  import opened Entity
  import opened Timeline
  import opened HeatScore
  import opened Merging
  import opened RowLaws
  import opened Folding

  /** The instant a sighting moves the seen bounds to. */
  predicate Moves(o: Obs, first: Time, last: Time, first': Time, last': Time) {
    var event := if o.posted != 0 then o.posted else if o.seen != 0 then o.seen else o.clock.atBounds;
    && first' == (if first == 0 || event < first then event else first)
    && last' == (if event > last then event else last)
  }

  /** The alias labels a sighting's keys give. */
  function KeyLabels(keys: seq<Key>): set<string> {
    (set k | k in keys :: Trim(k.kind + ":" + k.value)) - {""}
  }

  lemma AliasesAreKeyLabels(keys: seq<Key>)
    ensures Labels(AliasTokens(keys)) == KeyLabels(keys)
  {
    var tokens := AliasTokens(keys);
    forall k | k in keys
      ensures Trim(k.kind + ":" + k.value) in (set x | x in tokens :: Trim(x))
    {
      var i :| 0 <= i < |keys| && keys[i] == k;
      assert tokens[i] == k.kind + ":" + k.value && tokens[i] in tokens;
    }
    forall x | x in tokens
      ensures Trim(x) in (set k | k in keys :: Trim(k.kind + ":" + k.value))
    {
      var i :| 0 <= i < |tokens| && tokens[i] == x;
      assert keys[i] in keys && x == keys[i].kind + ":" + keys[i].value;
    }
  }

  /** The heat of d by the given configuration and instant; a disabled configuration leaves the old heat. */
  predicate HeatedBy(cfg: Config, now: Time, before: Heat, d: Doc) {
    if cfg.enabled then d.heat == HeatOf(d.rows, d.sourceCount, d.painHits, Normalize(cfg), now) else d.heat == before
  }

  /** A known hash: only row, bounds, generation and heat move, and the heat by the default configuration. */
  lemma KnownHash(sig: Signals, d: Doc, o: Obs, cfg: Config, now: Time)
    requires Trim(o.hash) != "" && Trim(o.hash) in d.hashes
    ensures var d' := Merge(sig, d, o, cfg, now);
            && d'.id == d.id && d'.primary == d.primary && d'.aliases == d.aliases && d'.hashes == d.hashes
            && d'.sources == d.sources && d'.families == d.families && d'.matched == d.matched && d'.stack == d.stack
            && d'.sightings == d.sightings && d'.sourceCount == d.sourceCount && d'.painHits == d.painHits
            && d'.buyerSeen == d.buyerSeen && d'.review == d.review && d'.generation == d.generation + 1
            && d'.rows == Record(d.rows, o) && Moves(o, d.first, d.last, d'.first, d'.last)
            && d'.heat == HeatOf(d'.rows, d.sourceCount, d.painHits, DEFAULT, o.clock.atHeat)
  {
    var x := Observe(d.(generation := d.generation + 1), o);
    RecomputeFrame(x, DEFAULT, o.clock.atHeat, o.clock.atHeat);
  }

  /** A new hash: every list gains the sighting's labels, every counter what it stands for. */
  lemma NewHash(sig: Signals, d: Doc, o: Obs, cfg: Config, now: Time)
    requires Shape(d) && Trim(o.hash) != "" && Trim(o.hash) !in d.hashes && now != 0
    ensures var d' := Merge(sig, d, o, cfg, now);
            && d'.id == d.id && d'.primary == d.primary && d'.review == d.review
            && Labels(d'.aliases) == Labels(d.aliases) + KeyLabels(o.keys)
            && Elems(d'.hashes) == Elems(d.hashes) + {Trim(o.hash)}
            && Elems(d'.sources) == Elems(d.sources) + ({Trim(o.source)} - {""})
            && Elems(d'.families) == Elems(d.families) + ({Trim(SourceFamily(o.source))} - {""})
            && Elems(d'.matched) == Elems(d.matched) + Labels(o.matched)
            && Elems(d'.stack) == Elems(d.stack) + Labels(o.stack)
    ensures var d' := Merge(sig, d, o, cfg, now);
            && d'.sightings == d.sightings + 1 && d'.sourceCount == |d'.families| && d'.generation == d.generation + 1
            && d'.painHits == d.painHits + (if |o.matched| > 0 || sig.pain(o.text) then 1 else 0)
            && d'.buyerSeen == (d.buyerSeen || sig.buyer(o.stack, o.text))
            && d'.rows == Record(d.rows, o) && Moves(o, d.first, d.last, d'.first, d'.last)
            && HeatedBy(cfg, now, d.heat, d')
  {
    var x := Absorb(sig, d, o);
    AbsorbLists(sig, d, o);
    UnionLabels(d.aliases, AliasTokens(o.keys));
    AliasesAreKeyLabels(o.keys);
    RecomputeFrame(x, cfg, now, o.clock.atHeat);
  }

  /** A caller without an instant leaves it to the call's own clock. */
  lemma ZeroNowMeansOwnClock(sig: Signals, d: Doc, o: Obs, id: string, primary: Key, cfg: Config)
    ensures Merge(sig, d, o, cfg, 0) == Merge(sig, d, o, cfg, o.clock.atHeat)
    ensures NewDoc(sig, id, primary, o, cfg, 0) == NewDoc(sig, id, primary, o, cfg, o.clock.atHeat)
  {
  }

  /** The canonical hash while heat has no say: the first one, or the first buyer's. */
  lemma NewHashClaims(sig: Signals, d: Doc, o: Obs, cfg: Config, now: Time)
    requires Trim(o.hash) != "" && Trim(o.hash) !in d.hashes && !cfg.enabled
    ensures var takes := d.canonical == "" || (sig.buyer(o.stack, o.text) && !d.buyerSeen);
            Merge(sig, d, o, cfg, now).canonical == if takes then Trim(o.hash) else d.canonical
  {
  }

  /** The document of a first sighting. */
  lemma FirstSighting(sig: Signals, id: string, primary: Key, o: Obs, cfg: Config, now: Time)
    requires Trim(o.hash) != "" && now != 0
    ensures var d := NewDoc(sig, id, primary, o, cfg, now);
            && d.id == id && d.primary == primary
            && Labels(d.aliases) == KeyLabels(o.keys) && d.hashes == [Trim(o.hash)]
            && d.sightings == 1 && d.sourceCount == 1 && d.generation == 0 && d.canonical == Trim(o.hash)
            && Elems(d.sources) == {Trim(o.source)} - {""}
            && Elems(d.families) == {Trim(SourceFamily(o.source))} - {""}
            && Elems(d.matched) == Labels(o.matched) && Elems(d.stack) == Labels(o.stack)
    ensures var d := NewDoc(sig, id, primary, o, cfg, now);
            && d.painHits == (if |o.matched| > 0 || sig.pain(o.text) then 1 else 0)
            && d.buyerSeen == sig.buyer(o.stack, o.text)
            && d.review == Review("", 0.0, "", false, 0)
            && |d.rows| == 1 && Brought(o, d.rows[0]) && Moves(o, 0, 0, d.first, d.last)
            && HeatedBy(cfg, now, Heat(0.0, 0, Unset, 0, 0), d)
  {
    var seed := Seed(sig, id, primary, o);
    FirstLabels(o);
    assert [] + [BuildRow(o)] == [BuildRow(o)];
    assert Record([], o) == [BuildRow(o)];
    BroughtRow(o);
    RecomputeFrame(Observe(seed, o), cfg, now, o.clock.atHeat);
  }

  lemma FirstLabels(o: Obs)
    requires Trim(o.hash) != ""
    ensures Uniq([Trim(o.hash)]) == [Trim(o.hash)] && Labels(AliasTokens(o.keys)) == KeyLabels(o.keys)
    ensures Elems(Uniq([Trim(o.source)])) == {Trim(o.source)} - {""}
    ensures Elems(Uniq([SourceFamily(o.source)])) == {Trim(SourceFamily(o.source))} - {""}
    ensures Elems(Uniq(o.matched)) == Labels(o.matched) && Elems(Uniq(o.stack)) == Labels(o.stack)
  {
    UniqOne(Trim(o.hash));
    AliasesAreKeyLabels(o.keys);
    UniqMeaning([Trim(o.source)]);
    LabelsOne(Trim(o.source));
    UniqMeaning([SourceFamily(o.source)]);
    LabelsOne(SourceFamily(o.source));
    UniqMeaning(o.matched);
    UniqMeaning(o.stack);
  }
}
