/** The in-memory store: recordings under one lock, documents shared and mutated in place. */
module Store {
  import opened Text
  import opened Lists
  import opened Entity
  import opened HeatScore
  import opened Merging
  import opened Keys
  import opened InPlace

  const DEFAULT_ATTEMPTS := 4

  const ZERO_CONFIG := Config(false, 0.0, 0.0, 0.0, 0.0, 0.0, 0.0, 0.0, 0.0, 0, 0, 0, 0, 0)

  /** The document is the candidate's, or shares one of the aliases. */
  predicate MatchesDoc(d: Doc, aliases: seq<string>, candidate: string) {
    d.id == candidate || exists a | a in aliases :: a in d.aliases
  }

  ghost predicate AnyMatch(views: map<string, Doc>, aliases: seq<string>, candidate: string) {
    exists id | id in views :: MatchesDoc(views[id], aliases, candidate)
  }

  /**
   * The fields a recording reports of the document it changed. Cross-source hot: the tier says so, or, for a
   * document never scored, two sources, a pain hit and seen bounds within the window, seven days if none is set.
   */
  ghost predicate ReportsDoc(d: Doc, window: int, res: Result) {
    var days := if window <= 0 then 604_800_000_000_000 else window;
    && res.sightings == d.sightings && res.sourceCount == d.sourceCount && res.canonical == d.canonical
    && res.heatScore == d.heat.score && res.tier == d.heat.tier
    && (res.crossSourceHot <==>
          if d.heat.tier == Unset
          then d.sourceCount >= 2 && d.painHits >= 1 && d.first != 0 && d.last != 0 && d.last - d.first <= days
          else d.heat.tier == Hot || d.heat.tier == Blazing)
  }

  /** The recording brings the stored document a new hash from a family it does not list. */
  predicate SaysNewFamily(d: Doc, o: Obs) {
    && (Trim(o.hash) == "" || Trim(o.hash) !in d.hashes)
    && SourceFamily(o.source) != "" && SourceFamily(o.source) !in d.families
  }

  /** The whole report: exactly the reported document changed, or is new, and every field is as found there. */
  ghost predicate Reports(before: map<string, Doc>, after: map<string, Doc>, o: Obs, window: int, res: Result) {
    && res.id in after && after == before[res.id := after[res.id]]
    && (res.newEntity <==> res.id !in before)
    && (res.id in before ==> after[res.id].generation == before[res.id].generation + 1)
    && (res.newFamily <==> res.id in before && SaysNewFamily(before[res.id], o))
    && ReportsDoc(after[res.id], window, res)
  }

  lemma ReportsMerged(before: map<string, Doc>, after: map<string, Doc>, o: Obs, window: int, res: Result)
    requires res.id in before && res.id in after && after == before[res.id := after[res.id]]
    requires after[res.id].generation == before[res.id].generation + 1
    requires !res.newEntity && (res.newFamily <==> SaysNewFamily(before[res.id], o))
    requires ReportsDoc(after[res.id], window, res)
    ensures Reports(before, after, o, window, res)
  {
  }

  class MemoryStore {
    var docs: map<string, EntityDoc>
    const window: int
    const heatConfig: Config

    constructor (window: int, heatConfig: Config)
      ensures Valid() && Sound() && Views() == map[]
      ensures this.window == window && this.heatConfig == heatConfig
    {
      docs := map[];
      this.window, this.heatConfig := window, heatConfig;
    }

    /** The zero configuration stands for the default one. */
    function Config(): Config {
      if heatConfig == ZERO_CONFIG then DEFAULT else heatConfig
    }

    /** Every document is filed under its own id. */
    ghost predicate Valid()
      reads this, docs.Values
    {
      forall id | id in docs :: docs[id].id == id
    }

    function Views(): map<string, Doc>
      reads this, docs.Values
    {
      map id | id in docs :: docs[id].View()
    }

    /** Every stored document satisfies the document invariant. */
    ghost predicate Sound()
      reads this, docs.Values
    {
      AllInv(Views())
    }

    /** findLocked: the candidate first, then any document with a shared alias, in the map's own order. */
    method FindLocked(aliases: seq<string>, candidate: string) returns (doc: EntityDoc?)
      requires Valid()
      ensures doc != null ==> doc.id in docs && docs[doc.id] == doc && MatchesDoc(Views()[doc.id], aliases, candidate)
      ensures doc != null && candidate in docs ==> doc == docs[candidate]
      ensures doc == null <==> !AnyMatch(Views(), aliases, candidate)
    {
      if candidate in docs {
        return docs[candidate];
      }
      var left := docs.Keys;
      while left != {}
        invariant left <= docs.Keys
        invariant forall id | id in docs && id !in left :: !MatchesDoc(Views()[id], aliases, candidate)
        decreases |left|
      {
        var id :| id in left;
        for i := 0 to |aliases|
          invariant forall j | 0 <= j < i :: aliases[j] !in docs[id].aliases
        {
          if aliases[i] in docs[id].aliases {
            return docs[id];
          }
        }
        left := left - {id};
      }
      return null;
    }

    /** The backend's InsertNew. */
    method InsertNew(doc: EntityDoc) returns (duplicate: bool)
      requires Valid()
      modifies this`docs
      ensures duplicate <==> old(AnyMatch(Views(), doc.aliases, doc.id))
      ensures docs == if duplicate then old(docs) else old(docs)[doc.id := doc]
      ensures Valid() && Views() == if duplicate then old(Views()) else old(Views())[doc.id := doc.View()]
    {
      var existing := FindLocked(doc.aliases, doc.id);
      if existing != null || doc.id in docs {
        assert doc.id in docs ==> MatchesDoc(Views()[doc.id], doc.aliases, doc.id);
        return true;
      }
      docs := docs[doc.id := doc];
      return false;
    }

    /** The backend's ReplaceMerged: the merge already happened in place and must have advanced the generation once. */
    method ReplaceMerged(doc: EntityDoc, generation: int) returns (ok: bool)
      ensures ok <==> doc.id in docs && docs[doc.id].generation == generation + 1
    {
      ok := doc.id in docs && docs[doc.id].generation == generation + 1;
    }

    /** The merge branch of recordSightingOnce: the found document is mutated through its pointer. */
    method MergeExisting(sig: Signals, o: Obs, existing: EntityDoc) returns (res: Result, ok: bool)
      requires Valid() && existing.id in docs && docs[existing.id] == existing
      modifies existing
      ensures Valid() && ok
      ensures existing.View() == Merge(sig, old(existing.View()), o, Config(), o.clock.atMerge)
      ensures Views() == old(Views())[existing.id := existing.View()]
      ensures res.id == existing.id && !res.newEntity && ReportsDoc(existing.View(), window, res)
      ensures res.newFamily <==> SaysNewFamily(old(existing.View()), o)
      ensures existing.generation == old(existing.generation) + 1
    {
      var generation := existing.generation;
      res := MergeFound(sig, o, existing);
      ok := ReplaceMerged(existing, generation);
      res := Enrich(res, existing.View(), window);
    }

    method MergeFound(sig: Signals, o: Obs, existing: EntityDoc) returns (res: Result)
      requires Valid() && existing.id in docs && docs[existing.id] == existing
      modifies existing
      ensures Valid() && Views() == old(Views())[existing.id := existing.View()]
      ensures existing.View() == Merge(sig, old(existing.View()), o, Config(), o.clock.atMerge)
      ensures existing.generation == old(existing.generation) + 1
      ensures res.id == existing.id && !res.newEntity
      ensures res.sightings == existing.sightings && res.sourceCount == existing.sourceCount
      ensures res.newFamily <==> SaysNewFamily(old(existing.View()), o)
    {
      res := existing.MergeSighting(sig, o, Config(), o.clock.atMerge);
      MergeGeneration(sig, old(existing.View()), o, Config(), o.clock.atMerge);
    }

    /** The insert branch of recordSightingOnce. */
    method InsertFresh(sig: Signals, o: Obs, candidate: string) returns (res: Result, duplicate: bool)
      requires Valid() && o.keys != []
      requires !AnyMatch(Views(), AliasTokens(o.keys), candidate)
      modifies this`docs
      ensures Valid() && !duplicate && candidate in docs && candidate !in old(docs)
      ensures docs[candidate].View() == NewDoc(sig, candidate, o.keys[0], o, Config(), o.clock.atMerge)
      ensures Views() == old(Views())[candidate := docs[candidate].View()]
      ensures res.id == candidate && res.newEntity && !res.newFamily && ReportsDoc(docs[candidate].View(), window, res)
    {
      assert candidate in docs ==> MatchesDoc(Views()[candidate], AliasTokens(o.keys), candidate);
      var doc := MakeDoc(sig, o, candidate);
      duplicate := InsertNew(doc);
      res := ReportNew(doc);
    }

    /** The result literal of the insert branch. */
    method ReportNew(doc: EntityDoc) returns (res: Result)
      requires doc.sightings == doc.sourceCount == 1
      ensures res.id == doc.id && res.newEntity && !res.newFamily && ReportsDoc(doc.View(), window, res)
    {
      res := NO_RESULT.(id := doc.id, sightings := 1, sourceCount := 1, newEntity := true);
      res := Enrich(res, doc.View(), window);
    }

    method MakeDoc(sig: Signals, o: Obs, candidate: string) returns (doc: EntityDoc)
      requires Valid() && o.keys != []
      ensures Valid() && Views() == old(Views()) && fresh(doc)
      ensures doc.id == candidate && doc.aliases == AliasTokens(o.keys) && doc.sightings == doc.sourceCount == 1
      ensures doc.View() == NewDoc(sig, candidate, o.keys[0], o, Config(), o.clock.atMerge)
    {
      doc := new EntityDoc(sig, candidate, o.keys[0], o, Config(), o.clock.atMerge);
      NewDocIdentity(sig, candidate, o.keys[0], o, Config(), o.clock.atMerge);
    }

    /** recordSightingOnce on this backend: it always completes. */
    method RecordOnce(sig: Signals, digest: string -> string, o: Obs) returns (res: Result, done: bool)
      requires Valid() && o.keys != [] && Trim(o.hash) != ""
      modifies this`docs, docs.Values
      ensures done && Valid()
      ensures Completed(old(Views()), Views(), sig, digest, Config(), o, window, res)
    {
      var existing := Locate(digest, o);
      if existing != null {
        res, done := RecordInto(sig, digest, o, existing);
      } else {
        res, done := RecordNew(sig, digest, o);
      }
    }

    /** The document is stored and is the one the recording goes into. */
    ghost predicate Found(digest: string -> string, o: Obs, existing: EntityDoc)
      reads this, docs.Values
    {
      && existing.id in docs && docs[existing.id] == existing
      && MatchesDoc(existing.View(), AliasTokens(o.keys), EntityID(digest, o.keys))
      && (EntityID(digest, o.keys) in docs ==> existing == docs[EntityID(digest, o.keys)])
    }

    method Locate(digest: string -> string, o: Obs) returns (existing: EntityDoc?)
      requires Valid()
      ensures Valid() && Views() == old(Views())
      ensures existing != null ==> existing in docs.Values && Found(digest, o, existing)
      ensures existing == null <==> !AnyMatch(Views(), AliasTokens(o.keys), EntityID(digest, o.keys))
    {
      existing := FindLocked(AliasTokens(o.keys), EntityID(digest, o.keys));
    }

    method RecordInto(
        sig: Signals, digest: string -> string, o: Obs, existing: EntityDoc) returns (res: Result, done: bool)
      requires Valid() && o.keys != [] && existing in docs.Values && Found(digest, o, existing)
      modifies existing
      ensures done && Valid() && Completed(old(Views()), Views(), sig, digest, Config(), o, window, res)
    {
      ghost var before := Views();
      res, done := MergeExisting(sig, o, existing);
      ReportsMerged(before, Views(), o, window, res);
      MergedIsRecorded(before, Views(), sig, digest, Config(), o, existing.id);
    }

    method RecordNew(sig: Signals, digest: string -> string, o: Obs) returns (res: Result, done: bool)
      requires Valid() && o.keys != [] && !AnyMatch(Views(), AliasTokens(o.keys), EntityID(digest, o.keys))
      modifies this`docs
      ensures done && Valid() && Completed(old(Views()), Views(), sig, digest, Config(), o, window, res)
    {
      var duplicate;
      res, duplicate := InsertFresh(sig, o, EntityID(digest, o.keys));
      done := !duplicate;
      InsertedIsRecorded(old(Views()), Views(), sig, digest, Config(), o);
    }

    /** RecordSighting: the retry loop of RecordSightingCore under the store's lock. */
    method RecordSighting(
        sig: Signals, digest: string -> string, o: Obs) returns (res: Result, failed: bool, attempts: nat)
      requires Valid()
      modifies this`docs, docs.Values
      ensures Valid() && !failed
      ensures o.keys == [] || Trim(o.hash) == "" ==> attempts == 0 && res == NO_RESULT && Views() == old(Views())
      ensures o.keys != [] && Trim(o.hash) != "" ==>
                attempts == 1 && RecordedIn(old(Views()), Views(), sig, digest, Config(), o)
      ensures o.keys != [] && Trim(o.hash) != "" ==> Reports(old(Views()), Views(), o, window, res)
      ensures old(Sound()) && Recordable(o) ==> Sound()
    {
      failed, attempts, res := false, 0, NO_RESULT;
      if |o.keys| == 0 || Trim(o.hash) == "" {
        return;
      }
      ghost var before := Views();
      var done := false;
      while attempts < DEFAULT_ATTEMPTS && !done
        invariant attempts <= 1 && Valid() && (done <==> attempts == 1)
        invariant !done ==> docs == old(docs) && Views() == before && forall id | id in docs :: unchanged(docs[id])
        invariant done ==> Completed(before, Views(), sig, digest, Config(), o, window, res)
        decreases DEFAULT_ATTEMPTS - attempts
      {
        attempts := attempts + 1;
        res, done := RecordOnce(sig, digest, o);
      }
      if !done {
        failed := true;
      }
      if Recordable(o) {
        RecordedSound(before, Views(), sig, digest, Config(), o);
      }
    }
  }

  /** Every document of a store satisfies the document invariant. */
  ghost predicate AllInv(views: map<string, Doc>) {
    forall id | id in views :: DocInv(views[id])
  }

  /**
   * What recording o does to the stored documents: one document that matches it, the
   * candidate's if there is one, is replaced by its merge; or, if none matches, a new document
   * is filed under the candidate id. No other document changes.
   */
  ghost predicate RecordedIn(
      before: map<string, Doc>, after: map<string, Doc>, sig: Signals, digest: string -> string, cfg: Config,
      o: Obs)
    requires o.keys != []
  {
    var aliases, candidate, now := AliasTokens(o.keys), EntityID(digest, o.keys), o.clock.atMerge;
    if !AnyMatch(before, aliases, candidate)
    then after == before[candidate := NewDoc(sig, candidate, o.keys[0], o, cfg, now)]
    else
      exists id | id in before ::
        && MatchesDoc(before[id], aliases, candidate) && (candidate in before ==> id == candidate)
        && after == before[id := Merge(sig, before[id], o, cfg, now)]
  }

  ghost predicate Completed(
      before: map<string, Doc>, after: map<string, Doc>, sig: Signals, digest: string -> string, cfg: Config, o: Obs,
      window: int, res: Result)
    requires o.keys != []
  {
    RecordedIn(before, after, sig, digest, cfg, o) && Reports(before, after, o, window, res)
  }

  lemma MergedIsRecorded(
      before: map<string, Doc>, after: map<string, Doc>, sig: Signals, digest: string -> string, cfg: Config,
      o: Obs, id: string)
    requires o.keys != [] && id in before
    requires MatchesDoc(before[id], AliasTokens(o.keys), EntityID(digest, o.keys))
    requires EntityID(digest, o.keys) in before ==> id == EntityID(digest, o.keys)
    requires after == before[id := Merge(sig, before[id], o, cfg, o.clock.atMerge)]
    ensures RecordedIn(before, after, sig, digest, cfg, o)
  {
  }

  lemma InsertedIsRecorded(
      before: map<string, Doc>, after: map<string, Doc>, sig: Signals, digest: string -> string, cfg: Config,
      o: Obs)
    requires o.keys != [] && !AnyMatch(before, AliasTokens(o.keys), EntityID(digest, o.keys))
    requires var id := EntityID(digest, o.keys);
             after == before[id := NewDoc(sig, id, o.keys[0], o, cfg, o.clock.atMerge)]
    ensures RecordedIn(before, after, sig, digest, cfg, o)
  {
  }

  lemma MergeGeneration(sig: Signals, d: Doc, o: Obs, cfg: Config, now: Time)
    ensures Merge(sig, d, o, cfg, now).generation == d.generation + 1 && Merge(sig, d, o, cfg, now).id == d.id
  {
  }

  lemma NewDocIdentity(sig: Signals, id: string, primary: Key, o: Obs, cfg: Config, now: Time)
    ensures var d := NewDoc(sig, id, primary, o, cfg, now);
            d.id == id && d.aliases == AliasTokens(o.keys) && d.sightings == d.sourceCount == 1
  {
  }

  /** Recording a recordable observation keeps the invariant of every stored document. */
  lemma RecordedSound(
      before: map<string, Doc>, after: map<string, Doc>, sig: Signals, digest: string -> string, cfg: Config,
      o: Obs)
    requires Recordable(o) && o.keys != [] && RecordedIn(before, after, sig, digest, cfg, o)
    ensures AllInv(before) ==> AllInv(after)
  {
    var aliases, candidate, now := AliasTokens(o.keys), EntityID(digest, o.keys), o.clock.atMerge;
    if !AnyMatch(before, aliases, candidate) {
      NewDocInv(sig, candidate, o.keys[0], o, cfg, now);
      OneMore(before, candidate, NewDoc(sig, candidate, o.keys[0], o, cfg, now));
    } else {
      var id :| id in before && MatchesDoc(before[id], aliases, candidate) && (candidate in before ==> id == candidate)
             && after == before[id := Merge(sig, before[id], o, cfg, now)];
      if DocInv(before[id]) {
        MergeInv(sig, before[id], o, cfg, now);
        OneMore(before, id, Merge(sig, before[id], o, cfg, now));
      }
    }
  }

  lemma OneMore(views: map<string, Doc>, id: string, d: Doc)
    requires DocInv(d)
    ensures AllInv(views) ==> AllInv(views[id := d])
  {
  }
}
