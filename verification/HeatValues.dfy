/** The values of the heat score and tier, by cases on what a row says and how old it is. */
module HeatValues {
  import opened Text
  import opened Entity
  import opened HeatScore

  /** The instant of a row: its post time, or else when it was seen. */
  predicate At(r: Row, event: Time) {
    event == if r.posted != 0 then r.posted else r.seen
  }

  /** The decay step of the row's age, in nanoseconds: a week, thirty days, ninety days. An undated row is capped. */
  predicate DecaysBy(r: Row, c: Config, now: Time, decay: real) {
    var event := if r.posted != 0 then r.posted else r.seen;
    var step := if event == 0 || now - event <= 604_800_000_000_000 then c.decay7
                else if now - event <= 2_592_000_000_000_000 then c.decay30
                else if now - event <= 7_776_000_000_000_000 then c.decay90
                else c.decayBeyond;
    decay == if r.posted == 0 && step > c.unknownDecay then c.unknownDecay else step
  }

  lemma WeightIs(r: Row, c: Config, now: Time, decay: real)
    requires DecaysBy(r, c, now, decay)
    ensures Weight(r, c, now) == Decayed(PainWeight(r), decay)
  {
    assert Decay(Age(r, now), r.posted == 0, c) == decay;
  }

  lemma SingleScore(r: Row, c: Config, now: Time)
    ensures Score([r], c, now) == Weight(r, c, now)
  {
    SumSnoc([], r, c, now);
    assert [] + [r] == [r];
    AtMostOneFamily(r, now);
  }

  lemma AtMostOneFamily(r: Row, now: Time)
    ensures |Families([r], now)| <= 1
  {
    assert Families([r], now) == if Diverse(r, now) then {RowFamily(r)} else {} by {
      assert r in [r];
    }
  }

  /**
   * The points of a row, fifty at most. Without matched terms they are the score itself; with them a missing score
   * counts thirty, and all of it 1.2 times, which is fifty from a score of 42 on.
   */
  predicate Worth(r: Row, points: real) {
    && (r.score <= 0 && r.matched == [] ==> points == 0.0)
    && (0 < r.score <= 50 && r.matched == [] ==> points == r.score as real)
    && (r.score > 50 && r.matched == [] ==> points == 50.0)
    && (r.score <= 0 && r.matched != [] ==> points == 36.0)
    && (0 < r.score <= 41 && r.matched != [] ==> points == 1.2 * r.score as real)
    && (r.score >= 42 && r.matched != [] ==> points == 50.0)
  }

  /** The score of a single row: its points times its decay. */
  lemma RowScore(r: Row, c: Config, now: Time, points: real, decay: real)
    requires Worth(r, points) && DecaysBy(r, c, now, decay)
    ensures Score([r], c, now) == points * decay
  {
    SingleScore(r, c, now);
    WeightIs(r, c, now, decay);
    Points(r);
    DecayedIs(points, decay);
  }

  lemma DecayedIs(points: real, decay: real)
    requires points >= 0.0
    ensures Decayed(points, decay) == points * decay
  {
  }

  lemma Points(r: Row)
    ensures Worth(r, PainWeight(r)) && 0.0 <= PainWeight(r) <= 50.0
  {
  }

  // ---------------------------------------------------------------- a whole timeline

  /** The scores the rows would have alone. */
  function SingleSum(rows: seq<Row>, c: Config, now: Time): real {
    if rows == [] then 0.0 else SingleSum(rows[..|rows| - 1], c, now) + Score([rows[|rows| - 1]], c, now)
  }

  lemma {:induction false} SumOfSingles(rows: seq<Row>, c: Config, now: Time)
    ensures SumWeights(rows, c, now) == SingleSum(rows, c, now)
  {
    if rows != [] {
      SumOfSingles(rows[..|rows| - 1], c, now);
      SingleScore(rows[|rows| - 1], c, now);
    }
  }

  /** A row that makes its family count: painful, dated or seen within the last thirty days, and of some family. */
  predicate CountsFor(r: Row, now: Time, family: string) {
    var event := if r.posted != 0 then r.posted else r.seen;
    && (r.matched != [] || r.score >= 15) && event != 0 && event >= now - 2_592_000_000_000_000
    && family != "" && family == if r.family != "" then r.family else SourceFamily(r.source)
  }

  /** The timeline's score is that of its rows together, times 1.3 for two and 1.5 for more families that count. */
  lemma TimelineScore(rows: seq<Row>, c: Config, now: Time, families: set<string>)
    requires forall f :: f in families <==> exists r | r in rows :: CountsFor(r, now, f)
    ensures |families| <= 1 ==> Score(rows, c, now) == SingleSum(rows, c, now)
    ensures |families| == 2 ==> Score(rows, c, now) == SingleSum(rows, c, now) * 1.3
    ensures |families| >= 3 ==> Score(rows, c, now) == SingleSum(rows, c, now) * 1.5
  {
    SumOfSingles(rows, c, now);
    CountingFamilies(rows, now, families);
  }

  lemma CountingFamilies(rows: seq<Row>, now: Time, families: set<string>)
    requires forall f :: f in families <==> exists r | r in rows :: CountsFor(r, now, f)
    ensures families == Families(rows, now)
  {
    forall f
      ensures f in families <==> f in Families(rows, now)
    {
      if f in families {
        var r :| r in rows && CountsFor(r, now, f);
        assert Diverse(r, now) && RowFamily(r) == f;
      }
      if f in Families(rows, now) {
        var r :| r in rows && Diverse(r, now) && RowFamily(r) == f;
        assert CountsFor(r, now, f);
      }
    }
  }

  // ---------------------------------------------------------------- bounds

  predicate DecaysAtMostOne(c: Config) {
    Positive(c) && c.decay7 <= 1.0 && c.decay30 <= 1.0 && c.decay90 <= 1.0 && c.decayBeyond <= 1.0
  }

  lemma WeightAtMost(r: Row, c: Config, now: Time)
    requires DecaysAtMostOne(c)
    ensures 0.0 <= Weight(r, c, now) <= 50.0
  {
    var points, decay := PainWeight(r), Decay(Age(r, now), r.posted == 0, c);
    Points(r);
    assert 0.0 <= points <= 50.0 && 0.0 <= decay <= 1.0;
    DecayedMonotone(points, decay, 1.0);
  }

  lemma {:induction false} SumAtMost(rows: seq<Row>, c: Config, now: Time)
    requires DecaysAtMostOne(c)
    ensures 0.0 <= SumWeights(rows, c, now) <= 50.0 * |rows| as real
  {
    if rows != [] {
      SumAtMost(rows[..|rows| - 1], c, now);
      WeightAtMost(rows[|rows| - 1], c, now);
    }
  }

  /** With decays of at most one a row adds at most 75, so a full timeline stays within 1500. */
  lemma ScoreAtMost(rows: seq<Row>, c: Config, now: Time)
    requires DecaysAtMostOne(c)
    ensures 0.0 <= Score(rows, c, now) <= 75.0 * |rows| as real
  {
    var sum, bonus, most := SumWeights(rows, c, now), Bonus(|Families(rows, now)|), 50.0 * |rows| as real;
    SumAtMost(rows, c, now);
    ProductGrows(sum, most, bonus, 1.5, Score(rows, c, now), most * 1.5);
    ProductGrows(0.0, sum, 0.0, bonus, 0.0, Score(rows, c, now));
  }

  // ---------------------------------------------------------------- tiers

  /** Some row lies in the freshness window, after the zero time. */
  ghost predicate FreshRow(rows: seq<Row>, c: Config, now: Time) {
    exists r, event | r in rows && At(r, event) :: event > 0 && event >= now - c.freshWindow
  }

  /** The latest instant in the freshness window, or zero. */
  lemma FreshIs(rows: seq<Row>, c: Config, now: Time)
    ensures var f := Fresh(rows, now, c.freshWindow);
            && (f != 0 <==> FreshRow(rows, c, now)) && f >= 0
            && (f != 0 ==> exists r | r in rows :: At(r, f))
            && forall r, event | r in rows && At(r, event) && event >= now - c.freshWindow && event != 0 :: event <= f
  {
    FreshIsLatest(rows, now, c.freshWindow);
    var f := Fresh(rows, now, c.freshWindow);
    forall r, event | r in rows && At(r, event) && event >= now - c.freshWindow && event != 0
      ensures event <= f
    {
      assert Within(r, now, c.freshWindow) && Event(r) == event;
    }
    if f != 0 {
      var r :| r in rows && Within(r, now, c.freshWindow) && Event(r) == f;
      assert At(r, f);
    }
  }

  /** Each tier, exactly: hot and blazing need a fresh row, two sources and a pain hit beside their threshold. */
  lemma TierIs(rows: seq<Row>, sourceCount: int, painHits: int, c: Config, now: Time)
    ensures var h, x := HeatOf(rows, sourceCount, painHits, c, now), Score(rows, c, now);
            var backed := FreshRow(rows, c, now) && sourceCount >= 2 && painHits >= 1;
            && h.score == x && h.at == now
            && (h.tier == Blazing <==> x >= c.blazing && backed)
            && (h.tier == Hot <==> x >= c.hot && backed && !(x >= c.blazing))
            && (h.tier == Warm <==> x >= c.warm && !(backed && (x >= c.hot || x >= c.blazing)))
            && (h.tier == Cold <==> !(x >= c.warm) && !(backed && (x >= c.hot || x >= c.blazing)))
  {
    FreshIs(rows, c, now);
  }

  /** The rounded score is the nearest integer, a half rounding away from zero. */
  lemma RoundedIs(x: real)
    ensures x >= 0.0 ==> Round(x) as real - 0.5 <= x < Round(x) as real + 0.5
    ensures x < 0.0 ==> Round(x) as real - 0.5 < x <= Round(x) as real + 0.5
  {
  }

  /** What is not positive in a configuration takes its default; the rest stays. */
  lemma NormalizedValues(c: Config)
    ensures var n := Normalize(c);
            && n.enabled == c.enabled
            && n.blazing == (if c.blazing > 0.0 then c.blazing else 80.0)
            && n.hot == (if c.hot > 0.0 then c.hot else 50.0)
            && n.warm == (if c.warm > 0.0 then c.warm else 25.0)
            && n.decay7 == (if c.decay7 > 0.0 then c.decay7 else 1.0)
            && n.decay30 == (if c.decay30 > 0.0 then c.decay30 else 0.6)
            && n.decay90 == (if c.decay90 > 0.0 then c.decay90 else 0.25)
            && n.decayBeyond == (if c.decayBeyond > 0.0 then c.decayBeyond else 0.1)
            && n.unknownDecay == (if c.unknownDecay > 0.0 then c.unknownDecay else 0.5)
            && n.freshWindow == (if c.freshWindow > 0 then c.freshWindow else 1_209_600_000_000_000)
            && n.canonicalWindow == (if c.canonicalWindow > 0 then c.canonicalWindow else 1_209_600_000_000_000)
            && n.hotBoost == (if c.hotBoost > 0 then c.hotBoost else 20)
            && n.blazingBoost == (if c.blazingBoost > 0 then c.blazingBoost else 30)
            && n.warmBoost == (if c.warmBoost > 0 then c.warmBoost else 5)
  {
  }

  /** By default a single unscored but matched sighting, posted just now, is warm with 36 points. */
  lemma DefaultExample(r: Row, now: Time)
    requires r.score == 0 && r.matched != [] && r.posted == now != 0
    ensures var h := HeatOf([r], 1, 1, DEFAULT, now); h.score == 36.0 && h.rounded == 36 && h.tier == Warm
  {
    RowScore(r, DEFAULT, now, 36.0, 1.0);
    TierIs([r], 1, 1, DEFAULT, now);
  }
}
