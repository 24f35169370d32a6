/** Entities, sightings and timeline rows of the entity graph, as values. */
module Entity {
  import opened Text
  import opened Lists

  /** An instant; 0 is Go's zero time, which the code reads as "not set". */
  type Time = int

  const MAX_SIGHTINGS := 20
  const MAX_SNIPPET := 500

  datatype Key = Key(kind: string, value: string) {
    function Canonical(): string {
      kind + ":" + value
    }
  }

  /** The clock readings one recording call may take, in the order the code takes them. */
  datatype Clock = Clock(atMerge: Time, atRefresh: Time, atBuild: Time, atBounds: Time, atHeat: Time)

  /** One pipeline observation with its resolved identity keys and the call's clock readings. */
  datatype Obs = Obs(
    keys: seq<Key>, hash: string, source: string, matched: seq<string>, stack: seq<string>,
    text: string, score: int, posted: Time, seen: Time, clock: Clock)

  /** One timeline row of an entity. */
  datatype Row = Row(
    hash: string, source: string, family: string, posted: Time, seen: Time,
    matched: seq<string>, snippet: string, score: int)

  /** The heat tiers; Unset is the empty string of a document never scored. */
  datatype Tier = Unset | Cold | Warm | Hot | Blazing

  datatype Heat = Heat(score: real, rounded: int, tier: Tier, at: Time, freshAt: Time)

  /** The fields the model classification writes and a split clears. */
  datatype Review = Review(pain: string, confidence: real, intent: string, needsReview: bool, at: Time)

  const NO_HEAT := Heat(0.0, 0, Unset, 0, 0)
  const NO_REVIEW := Review("", 0.0, "", false, 0)

  datatype Doc = Doc(
    id: string, primary: Key, aliases: seq<string>, hashes: seq<string>, sources: seq<string>,
    families: seq<string>, matched: seq<string>, stack: seq<string>, first: Time, last: Time,
    sightings: int, sourceCount: int, painHits: int, buyerSeen: bool, canonical: string,
    heat: Heat, review: Review, generation: int, rows: seq<Row>)

  /** The text filters of other packages: a pain phrase in a text, a buyer role in a stack and text. */
  datatype Signals = Signals(pain: string -> bool, buyer: (seq<string>, string) -> bool)

  /** merge.go's sightingSignals, first result. */
  predicate HasPain(sig: Signals, text: string, matched: seq<string>) {
    |matched| > 0 || sig.pain(text)
  }

  function AliasTokens(keys: seq<Key>): seq<string> {
    seq(|keys|, i requires 0 <= i < |keys| => keys[i].Canonical())
  }

  function IndexOf(s: string, c: char): (i: int)
    ensures -1 <= i < |s|
    ensures i >= 0 ==> s[i] == c && c !in s[..i]
    ensures i < 0 ==> c !in s
  {
    if s == "" then -1
    else if s[0] == c then 0
    else
      var r := IndexOf(s[1..], c);
      assert s == [s[0]] + s[1..];
      if r < 0 then -1 else
      assert s[..r + 1] == [s[0]] + s[1..][..r];
      r + 1
  }

  /**
   * The coarse family of a source label. Every listed prefix except `ads_txt:`
   * names its own family, which is also what the text before the colon says.
   */
  function SourceFamily(source: string): string {
    var s := Lower(Trim(source));
    if HasPrefix(s, "ads_txt:") then "supply"
    else
      var i := IndexOf(s, ':');
      if i > 0 then s[..i] else s
  }

  /**
   * The family of a label: "supply" for an ads.txt label, else the text before its first colon if there is any
   * text before it, else the label; always trimmed and lower-cased first.
   */
  lemma FamilyMeaning(source: string, head: string, tail: string)
    ensures var s, f := Lower(Trim(source)), SourceFamily(source);
            && ("ads_txt:" <= s ==> f == "supply")
            && (!("ads_txt:" <= s) && s == head + ":" + tail && head != "" && ':' !in head ==> f == head)
            && (!("ads_txt:" <= s) && (':' !in s || s[0] == ':') ==> f == s)
  {
    var s := Lower(Trim(source));
    if s == head + ":" + tail && head != "" && ':' !in head {
      assert s[|head|] == ':' && s[..|head|] == head;
      var i := IndexOf(s, ':');
      assert i == |head|;
    }
  }

  lemma {:induction false} StartsVisible(s: string)
    requires s != "" && !IsSpace(s[0])
    ensures !Blank(s)
    decreases |s|
  {
    if IsSpace(s[|s| - 1]) {
      StartsVisible(s[..|s| - 1]);
    }
  }

  /** A source label that is not blank always belongs to a family that is not blank. */
  lemma FamilyVisible(source: string)
    ensures Blank(SourceFamily(source)) <==> Blank(source)
  {
    var t := Trim(source);
    var s := Lower(t);
    if t != "" {
      assert s[0] == LowerChar(t[0]) && !IsSpace(s[0]);
      StartsVisible(SourceFamily(source));
    }
  }

  function SeenAt(o: Obs, reading: Time): Time {
    if o.seen != 0 then o.seen else reading
  }

  /** sighting.go's sightingEventTime: the post time if known, else the crawl time, else now. */
  function EventOf(o: Obs): Time {
    if o.posted != 0 then o.posted else SeenAt(o, o.clock.atBounds)
  }

  /** sighting.go's sightingEventTimeOf */
  function Event(r: Row): Time {
    if r.posted != 0 then r.posted else r.seen
  }

  /**
   * The observation is dated, or was stamped by the crawler, or its call read the same
   * instant three times; and that instant is not the zero time. Then the row and the
   * seen bounds agree on when it happened.
   */
  predicate Stamped(o: Obs) {
    && EventOf(o) != 0
    && (o.posted != 0 || o.seen != 0 || o.clock.atRefresh == o.clock.atBuild == o.clock.atBounds)
  }

  function Snippet(text: string): string {
    var t := Trim(text);
    if |t| <= MAX_SNIPPET then t else t[..MAX_SNIPPET]
  }

  /** sighting.go's buildEntitySighting */
  function BuildRow(o: Obs): Row {
    Row(Trim(o.hash), Trim(o.source), SourceFamily(o.source), o.posted, SeenAt(o, o.clock.atBuild),
        Uniq(o.matched), Snippet(o.text), o.score)
  }

  /** The in-place refresh of a known row: what the observation leaves out stays. */
  function RefreshRow(r: Row, o: Obs): Row {
    r.(seen := SeenAt(o, o.clock.atRefresh),
       posted := if o.posted != 0 then o.posted else r.posted,
       score := if o.score > 0 then o.score else r.score,
       matched := if |o.matched| > 0 then Uniq(o.matched) else r.matched,
       snippet := if !Blank(o.text) then Snippet(o.text) else r.snippet)
  }

  /** An observation the recording loop lets through to the store. */
  predicate Recordable(o: Obs) {
    !Blank(o.hash) && !Blank(o.source) && Stamped(o)
  }
}
