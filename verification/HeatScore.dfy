/** Entity heat: the decayed pain score, its tier and the canonical row. */
module HeatScore {
  import opened Text
  import opened Entity

  const HOUR := 3_600_000_000_000
  const DAY := 24 * HOUR

  datatype Config = Config(
    enabled: bool, blazing: real, hot: real, warm: real,
    decay7: real, decay30: real, decay90: real, decayBeyond: real, unknownDecay: real,
    freshWindow: int, canonicalWindow: int, hotBoost: int, blazingBoost: int, warmBoost: int)

  const DEFAULT := Config(true, 80.0, 50.0, 25.0, 1.0, 0.6, 0.25, 0.1, 0.5, 14 * DAY, 14 * DAY, 20, 30, 5)

  function OrReal(x: real, d: real): real {
    if x <= 0.0 then d else x
  }

  function OrInt(x: int, d: int): int {
    if x <= 0 then d else x
  }

  /** heat.go's normalizeHeatConfig: whatever is not positive takes its default. */
  function Normalize(c: Config): Config {
    Config(c.enabled, OrReal(c.blazing, DEFAULT.blazing), OrReal(c.hot, DEFAULT.hot), OrReal(c.warm, DEFAULT.warm),
           OrReal(c.decay7, DEFAULT.decay7), OrReal(c.decay30, DEFAULT.decay30), OrReal(c.decay90, DEFAULT.decay90),
           OrReal(c.decayBeyond, DEFAULT.decayBeyond), OrReal(c.unknownDecay, DEFAULT.unknownDecay),
           OrInt(c.freshWindow, DEFAULT.freshWindow), OrInt(c.canonicalWindow, DEFAULT.canonicalWindow),
           OrInt(c.hotBoost, DEFAULT.hotBoost), OrInt(c.blazingBoost, DEFAULT.blazingBoost),
           OrInt(c.warmBoost, DEFAULT.warmBoost))
  }

  function TierRank(t: Tier): nat {
    match t
    case Blazing => 4
    case Hot => 3
    case Warm => 2
    case Cold => 1
    case Unset => 0
  }

  // ---------------------------------------------------------------- one row

  function PainWeight(r: Row): real {
    var base := if r.score <= 0 && |r.matched| > 0 then 30.0 else r.score as real;
    if base <= 0.0 then 0.0
    else
      var capped := if base > 50.0 then 50.0 else base;
      if |r.matched| == 0 then capped
      else if capped * 1.2 > 50.0 then 50.0 else capped * 1.2
  }

  /** The age of a row, never negative; a row without any date has age zero. */
  function Age(r: Row, now: Time): int {
    var t := Event(r);
    if t == 0 || now < t then 0 else now - t
  }

  function Decay(age: int, unknown: bool, c: Config): real {
    var d := if age <= 7 * DAY then c.decay7
             else if age <= 30 * DAY then c.decay30
             else if age <= 90 * DAY then c.decay90
             else c.decayBeyond;
    if unknown && d > c.unknownDecay then c.unknownDecay else d
  }

  function Weight(r: Row, c: Config, now: Time): real {
    Decayed(PainWeight(r), Decay(Age(r, now), r.posted == 0, c))
  }

  function Decayed(weight: real, decay: real): real {
    if weight <= 0.0 then 0.0 else weight * decay
  }

  /** The row's event is set and not before the cutoff. */
  predicate Within(r: Row, now: Time, window: int) {
    Event(r) != 0 && Event(r) >= now - window
  }

  function RowFamily(r: Row): string {
    if r.family != "" then r.family else SourceFamily(r.source)
  }

  /** The row counts towards source diversity. */
  predicate Diverse(r: Row, now: Time) {
    (|r.matched| > 0 || r.score >= 15) && Within(r, now, 30 * DAY) && RowFamily(r) != ""
  }

  // ---------------------------------------------------------------- the timeline

  function SumWeights(rows: seq<Row>, c: Config, now: Time): real {
    if rows == [] then 0.0 else SumWeights(rows[..|rows| - 1], c, now) + Weight(rows[|rows| - 1], c, now)
  }

  function Families(rows: seq<Row>, now: Time): set<string> {
    set r | r in rows && Diverse(r, now) :: RowFamily(r)
  }

  function Bonus(n: nat): real {
    if n <= 1 then 1.0 else if n == 2 then 1.3 else 1.5
  }

  function Score(rows: seq<Row>, c: Config, now: Time): real {
    SumWeights(rows, c, now) * Bonus(|Families(rows, now)|)
  }

  /** heat.go's computeFreshSightingAt: the latest event inside the window, or zero. */
  function Fresh(rows: seq<Row>, now: Time, window: int): Time {
    if rows == [] then 0
    else
      var f, r := Fresh(rows[..|rows| - 1], now, window), rows[|rows| - 1];
      if Within(r, now, window) && Event(r) > f then Event(r) else f
  }

  function Classify(score: real, freshAt: Time, sourceCount: int, painHits: int, c: Config): Tier {
    var crossSource := freshAt != 0 && sourceCount >= 2 && painHits >= 1;
    if score >= c.blazing && crossSource then Blazing
    else if score >= c.hot && crossSource then Hot
    else if score >= c.warm then Warm
    else Cold
  }

  /** math.Round: to the nearest integer, halves away from zero. */
  function Round(x: real): int {
    if x >= 0.0 then (x + 0.5).Floor else -((0.5 - x).Floor)
  }

  /** The heat of a timeline; c is a normalized configuration. */
  function HeatOf(rows: seq<Row>, sourceCount: int, painHits: int, c: Config, now: Time): Heat {
    var score, freshAt := Score(rows, c, now), Fresh(rows, now, c.freshWindow);
    Heat(score, Round(score), Classify(score, freshAt, sourceCount, painHits, c), now, freshAt)
  }

  /** heat.go's promoteCanonicalByHeat loop: the first heaviest row inside the window. */
  function Best(rows: seq<Row>, c: Config, now: Time): (string, real) {
    if rows == [] then ("", -1.0)
    else
      var (h, w), r := Best(rows[..|rows| - 1], c, now), rows[|rows| - 1];
      if Within(r, now, c.canonicalWindow) && Weight(r, c, now) > w then (r.hash, Weight(r, c, now)) else (h, w)
  }

  /** heat.go's RecomputeEntityHeat; `reading` is the clock it falls back to for a zero now. */
  function Recompute(d: Doc, cfg: Config, now: Time, reading: Time): Doc {
    if !cfg.enabled then d
    else
      var t, c := if now == 0 then reading else now, Normalize(cfg);
      var best := Best(d.rows, c, t).0;
      d.(heat := HeatOf(d.rows, d.sourceCount, d.painHits, c, t),
         canonical := if best != "" then best else d.canonical)
  }

  /** All decays and windows positive, as normalizing makes them. */
  predicate Positive(c: Config) {
    && c.decay7 > 0.0 && c.decay30 > 0.0 && c.decay90 > 0.0 && c.decayBeyond > 0.0 && c.unknownDecay > 0.0
    && c.freshWindow > 0 && c.canonicalWindow > 0
  }

  lemma NormalizeIsPositive(c: Config)
    ensures Positive(Normalize(c))
    ensures Normalize(Normalize(c)) == Normalize(c)
  {
  }

  // ---------------------------------------------------------------- heat only cools

  /** The decay table never steps up. */
  predicate Cooling(c: Config) {
    c.decay7 >= c.decay30 >= c.decay90 >= c.decayBeyond
  }

  lemma MulMonotone(a: real, b: real, x: real, y: real)
    requires 0.0 <= a <= b && 0.0 <= x <= y
    ensures a * x <= b * y
  {
    assert a * x <= b * x;
    assert b * x <= b * y;
  }

  lemma DecayCools(a1: int, a2: int, unknown: bool, c: Config)
    requires Positive(c) && Cooling(c) && a1 <= a2
    ensures 0.0 <= Decay(a2, unknown, c) <= Decay(a1, unknown, c)
  {
  }

  lemma WeightCools(r: Row, c: Config, t1: Time, t2: Time)
    requires Positive(c) && Cooling(c) && t1 <= t2
    ensures 0.0 <= Weight(r, c, t2) <= Weight(r, c, t1)
  {
    DecayCools(Age(r, t1), Age(r, t2), r.posted == 0, c);
    DecayedMonotone(PainWeight(r), Decay(Age(r, t2), r.posted == 0, c), Decay(Age(r, t1), r.posted == 0, c));
  }

  lemma DecayedMonotone(w: real, d2: real, d1: real)
    requires 0.0 <= d2 <= d1
    ensures 0.0 <= Decayed(w, d2) <= Decayed(w, d1)
  {
    if w > 0.0 {
      MulMonotone(w, w, d2, d1);
      MulMonotone(0.0, w, 0.0, d2);
    }
  }

  lemma {:induction false} SumCools(rows: seq<Row>, c: Config, t1: Time, t2: Time)
    requires Positive(c) && Cooling(c) && t1 <= t2
    ensures 0.0 <= SumWeights(rows, c, t2) <= SumWeights(rows, c, t1)
  {
    if rows != [] {
      SumCools(rows[..|rows| - 1], c, t1, t2);
      WeightCools(rows[|rows| - 1], c, t1, t2);
    }
  }

  lemma SubsetBonus(a: set<string>, b: set<string>)
    requires a <= b
    ensures 1.0 <= Bonus(|a|) <= Bonus(|b|)
  {
    assert b == a + (b - a);
  }

  lemma {:induction false} FreshCools(rows: seq<Row>, t1: Time, t2: Time, window: int)
    requires t1 <= t2
    ensures 0 <= Fresh(rows, t2, window) <= Fresh(rows, t1, window)
  {
    if rows != [] {
      FreshCools(rows[..|rows| - 1], t1, t2, window);
    }
  }

  lemma TierMonotone(s1: real, s2: real, f1: Time, f2: Time, n1: int, n2: int, p1: int, p2: int, c: Config)
    requires s1 <= s2 && (f1 != 0 ==> f2 != 0) && n1 <= n2 && p1 <= p2
    ensures TierRank(Classify(s1, f1, n1, p1, c)) <= TierRank(Classify(s2, f2, n2, p2, c))
  {
  }

  /** The same rows scored later are never hotter, in score or in tier. */
  lemma HeatOnlyCools(rows: seq<Row>, sourceCount: int, painHits: int, c: Config, t1: Time, t2: Time)
    requires Positive(c) && Cooling(c) && t1 <= t2
    ensures HeatOf(rows, sourceCount, painHits, c, t2).score <= HeatOf(rows, sourceCount, painHits, c, t1).score
    ensures TierRank(HeatOf(rows, sourceCount, painHits, c, t2).tier)
            <= TierRank(HeatOf(rows, sourceCount, painHits, c, t1).tier)
  {
    SumCools(rows, c, t1, t2);
    assert Families(rows, t2) <= Families(rows, t1);
    SubsetBonus(Families(rows, t2), Families(rows, t1));
    MulMonotone(SumWeights(rows, c, t2), SumWeights(rows, c, t1),
                Bonus(|Families(rows, t2)|), Bonus(|Families(rows, t1)|));
    FreshCools(rows, t1, t2, c.freshWindow);
  }

  /** A decay table that steps up somewhere heats up some timeline: a single dated row crossing the step. */
  lemma WarmsUp(c: Config) returns (rows: seq<Row>, t1: Time, t2: Time)
    requires Positive(c) && !Cooling(c)
    ensures t1 <= t2 && Score(rows, c, t2) > Score(rows, c, t1)
  {
    var r := Row("h", "forum:x", "forum", 1, 1, [], "", 10);
    rows := [r];
    t1 := 1 + if c.decay7 < c.decay30 then 7 * DAY else if c.decay30 < c.decay90 then 30 * DAY else 90 * DAY;
    t2 := t1 + 1;
    OneQuietRow(r, c, t1);
    OneQuietRow(r, c, t2);
    assert Decay(t1 - 1, false, c) < Decay(t2 - 1, false, c);
  }

  lemma OneQuietRow(r: Row, c: Config, now: Time)
    requires r.posted == 1 && r.score == 10 && r.matched == [] && now >= 1
    ensures Score([r], c, now) == 10.0 * Decay(now - 1, false, c)
  {
    assert [r][..0] == [];
    assert SumWeights([], c, now) == 0.0;
    assert PainWeight(r) == 10.0;
    assert SumWeights([r], c, now) == Weight(r, c, now);
    assert Families([r], now) == {};
  }

  /** Cooling over every timeline and every two instants is exactly the table's not stepping up. */
  lemma CoolsExactlyWhen(c: Config)
    requires Positive(c)
    ensures Cooling(c) <==>
            forall rows: seq<Row>, t1: Time, t2: Time | t1 <= t2 :: Score(rows, c, t2) <= Score(rows, c, t1)
  {
    if Cooling(c) {
      forall rows: seq<Row>, t1: Time, t2: Time | t1 <= t2
        ensures Score(rows, c, t2) <= Score(rows, c, t1)
      {
        HeatOnlyCools(rows, 0, 0, c, t1, t2);
      }
    } else {
      var rows, t1, t2 := WarmsUp(c);
    }
  }

  // ---------------------------------------------------------------- a further row only heats

  lemma WeightNonNegative(r: Row, c: Config, now: Time)
    requires Positive(c)
    ensures Weight(r, c, now) >= 0.0
  {
    var pw := PainWeight(r);
    if pw > 0.0 {
      MulMonotone(0.0, pw, 0.0, Decay(Age(r, now), r.posted == 0, c));
    }
  }

  lemma {:induction false} SumNonNegative(rows: seq<Row>, c: Config, now: Time)
    requires Positive(c)
    ensures SumWeights(rows, c, now) >= 0.0
  {
    if rows != [] {
      SumNonNegative(rows[..|rows| - 1], c, now);
      WeightNonNegative(rows[|rows| - 1], c, now);
    }
  }

  lemma RowOnlyHeats(rows: seq<Row>, r: Row, n1: int, n2: int, p1: int, p2: int, c: Config, now: Time)
    requires Positive(c) && n1 <= n2 && p1 <= p2
    ensures var h1, h2 := HeatOf(rows, n1, p1, c, now), HeatOf(rows + [r], n2, p2, c, now);
            h1.score <= h2.score && TierRank(h1.tier) <= TierRank(h2.tier)
  {
    ScoreGrows(rows, r, c, now);
    FreshGrows(rows, r, now, c.freshWindow);
    TierMonotone(Score(rows, c, now), Score(rows + [r], c, now), Fresh(rows, now, c.freshWindow),
                 Fresh(rows + [r], now, c.freshWindow), n1, n2, p1, p2, c);
  }

  lemma ScoreGrows(rows: seq<Row>, r: Row, c: Config, now: Time)
    requires Positive(c)
    ensures Score(rows, c, now) <= Score(rows + [r], c, now)
  {
    var more := rows + [r];
    SumSnoc(rows, r, c, now);
    SumNonNegative(rows, c, now);
    WeightNonNegative(r, c, now);
    MoreFamilies(rows, r, now);
    var s1, s2 := SumWeights(rows, c, now), SumWeights(more, c, now);
    var b1, b2 := Bonus(|Families(rows, now)|), Bonus(|Families(more, now)|);
    ProductGrows(s1, s2, b1, b2, Score(rows, c, now), Score(more, c, now));
  }

  lemma MoreFamilies(rows: seq<Row>, r: Row, now: Time)
    ensures 0.0 <= Bonus(|Families(rows, now)|) <= Bonus(|Families(rows + [r], now)|)
  {
    assert Families(rows, now) <= Families(rows + [r], now);
    SubsetBonus(Families(rows, now), Families(rows + [r], now));
  }

  lemma ProductGrows(s1: real, s2: real, b1: real, b2: real, x: real, y: real)
    requires 0.0 <= s1 <= s2 && 0.0 <= b1 <= b2 && x == s1 * b1 && y == s2 * b2
    ensures x <= y
  {
    MulMonotone(s1, s2, b1, b2);
  }

  lemma FreshGrows(rows: seq<Row>, r: Row, now: Time, window: int)
    ensures Fresh(rows, now, window) != 0 ==> Fresh(rows + [r], now, window) != 0
  {
    var more := rows + [r];
    assert more[..|more| - 1] == rows;
    FreshCools(rows, now, now, window);
  }

  // ---------------------------------------------------------------- the canonical row

  /** The chosen hash belongs to a heaviest row of the window, and one is chosen if the window has any row. */
  lemma {:induction false} BestIsHeaviest(rows: seq<Row>, c: Config, now: Time)
    requires Positive(c)
    ensures var (h, w) := Best(rows, c, now);
            && (forall r | r in rows && Within(r, now, c.canonicalWindow) :: Weight(r, c, now) <= w)
            && ((w == -1.0 && h == "")
                || exists r | r in rows :: Within(r, now, c.canonicalWindow) && r.hash == h && Weight(r, c, now) == w)
  {
    if rows != [] {
      var before, r := rows[..|rows| - 1], rows[|rows| - 1];
      assert rows == before + [r];
      BestIsHeaviest(before, c, now);
    }
  }

  // ---------------------------------------------------------------- heat does not depend on row order

  lemma {:induction false} FreshIsLatest(rows: seq<Row>, now: Time, window: int)
    ensures var f := Fresh(rows, now, window);
            && f >= 0
            && (forall r | r in rows && Within(r, now, window) :: Event(r) <= f)
            && (f == 0 || exists r | r in rows :: Within(r, now, window) && Event(r) == f)
  {
    if rows != [] {
      assert rows == rows[..|rows| - 1] + [rows[|rows| - 1]];
      FreshIsLatest(rows[..|rows| - 1], now, window);
    }
  }

  lemma {:induction false} SumWithout(rows: seq<Row>, i: nat, c: Config, now: Time)
    requires i < |rows|
    ensures SumWeights(rows, c, now) == SumWeights(rows[..i] + rows[i + 1..], c, now) + Weight(rows[i], c, now)
  {
    var n := |rows| - 1;
    if i == n {
      assert rows[..i] + rows[i + 1..] == rows[..n];
    } else {
      var before := rows[..n];
      SumWithout(before, i, c, now);
      WithoutSnoc(rows, i);
      SumSnoc(before[..i] + before[i + 1..], rows[n], c, now);
    }
  }

  lemma WithoutSnoc(rows: seq<Row>, i: nat)
    requires i < |rows| - 1
    ensures var n := |rows| - 1; rows[..i] + rows[i + 1..] == (rows[..n][..i] + rows[..n][i + 1..]) + [rows[n]]
  {
    var n := |rows| - 1;
    assert rows[..n][..i] == rows[..i] && rows[..n][i + 1..] == rows[i + 1..n];
    assert rows[i + 1..] == rows[i + 1..n] + [rows[n]];
  }

  lemma SumSnoc(rows: seq<Row>, r: Row, c: Config, now: Time)
    ensures SumWeights(rows + [r], c, now) == SumWeights(rows, c, now) + Weight(r, c, now)
  {
    assert (rows + [r])[..|rows|] == rows;
  }

  lemma Matching(before: seq<Row>, r: Row, b: seq<Row>) returns (i: nat)
    requires multiset(before + [r]) == multiset(b)
    ensures i < |b| && b[i] == r && multiset(before) == multiset(b[..i] + b[i + 1..])
  {
    assert r in multiset(before + [r]);
    assert r in multiset(b);
    i :| 0 <= i < |b| && b[i] == r;
    assert b == b[..i] + [r] + b[i + 1..];
    var rest := b[..i] + b[i + 1..];
    assert multiset(b) == multiset(rest) + multiset{r};
    assert multiset(before) == multiset(before + [r]) - multiset{r};
    assert multiset(rest) == multiset(b) - multiset{r};
  }

  lemma {:induction false} SumOfPermutation(a: seq<Row>, b: seq<Row>, c: Config, now: Time)
    requires multiset(a) == multiset(b)
    ensures SumWeights(a, c, now) == SumWeights(b, c, now)
  {
    if a == [] {
      assert |multiset(b)| == 0;
    } else {
      var before, r := a[..|a| - 1], a[|a| - 1];
      assert a == before + [r];
      var i := Matching(before, r, b);
      SumWithout(b, i, c, now);
      SumOfPermutation(before, b[..i] + b[i + 1..], c, now);
    }
  }

  lemma FreshOfSameRows(a: seq<Row>, b: seq<Row>, now: Time, window: int)
    requires forall r :: r in a <==> r in b
    ensures Fresh(a, now, window) == Fresh(b, now, window)
  {
    FreshIsLatest(a, now, window);
    FreshIsLatest(b, now, window);
  }

  lemma HeatOfPermutation(a: seq<Row>, b: seq<Row>, sourceCount: int, painHits: int, c: Config, now: Time)
    requires multiset(a) == multiset(b)
    ensures HeatOf(a, sourceCount, painHits, c, now) == HeatOf(b, sourceCount, painHits, c, now)
  {
    SumOfPermutation(a, b, c, now);
    SameElements(a, b);
    FamiliesOfSameRows(a, b, now);
    FreshOfSameRows(a, b, now, c.freshWindow);
  }

  lemma SameElements(a: seq<Row>, b: seq<Row>)
    requires multiset(a) == multiset(b)
    ensures forall r :: r in a <==> r in b
  {
    forall r ensures r in a <==> r in b {
      assert r in multiset(a) <==> r in multiset(b);
    }
  }

  lemma FamiliesOfSameRows(a: seq<Row>, b: seq<Row>, now: Time)
    requires forall r :: r in a <==> r in b
    ensures Families(a, now) == Families(b, now)
  {
  }
}
