/** When the canonical hash of an entity depends on the order its sightings were merged in. */
module Canonicity {
  import opened Text
  import opened Lists
  import opened Entity
  import opened Timeline
  import opened HeatScore
  import opened Merging
  import opened Folding

  // ---------------------------------------------------------------- bringing one sighting to the front

  function ToFront(xs: seq<Obs>, i: nat): seq<Obs>
    requires i < |xs|
  {
    [xs[i]] + xs[..i] + xs[i + 1..]
  }

  lemma ToFrontPermutes(xs: seq<Obs>, i: nat)
    requires i < |xs|
    ensures multiset(ToFront(xs, i)) == multiset(xs)
  {
    assert xs == xs[..i] + [xs[i]] + xs[i + 1..];
  }

  // ---------------------------------------------------------------- one more merge

  /** The last merge of a fold: an unseen hash, one row recorded, heat recomputed. */
  lemma LastMerge(sig: Signals, d: Doc, os: seq<Obs>, cfg: Config, now: Time)
    requires Shape(d) && Unseen(d, os) && os != []
    ensures var o, r := os[|os| - 1], MergeAll(sig, d, os[..|os| - 1], cfg, now);
            && Unseen(d, os[..|os| - 1]) && Shape(r) && Trim(o.hash) != "" && Trim(o.hash) !in Hashes(r.rows)
            && MergeAll(sig, d, os, cfg, now) == Recompute(Absorb(sig, r, o), cfg, now, o.clock.atHeat)
            && MergeAll(sig, d, os, cfg, now).rows == Absorb(sig, r, o).rows == Record(r.rows, o)
  {
    var before, o := os[..|os| - 1], os[|os| - 1];
    var r := MergeAll(sig, d, before, cfg, now);
    assert Unseen(d, before);
    FoldSums(sig, d, before, cfg, now);
    UnseenLast(d, os, r);
    RecomputeFrame(Absorb(sig, r, o), cfg, now, o.clock.atHeat);
  }

  lemma {:induction false} RowCount(sig: Signals, d: Doc, os: seq<Obs>, cfg: Config, now: Time)
    requires Shape(d) && Unseen(d, os)
    ensures var n := |d.rows| + |os|;
            |MergeAll(sig, d, os, cfg, now).rows| == if n <= MAX_SIGHTINGS then n else MAX_SIGHTINGS
  {
    if os != [] {
      LastMerge(sig, d, os, cfg, now);
      RowCount(sig, d, os[..|os| - 1], cfg, now);
      RecordMeaning(MergeAll(sig, d, os[..|os| - 1], cfg, now).rows, os[|os| - 1]);
    }
  }

  function Built(os: seq<Obs>): (rows: seq<Row>)
    ensures |rows| == |os|
  {
    seq(|os|, i requires 0 <= i < |os| => BuildRow(os[i]))
  }

  /** As long as there is room, the new rows follow the old ones in the order they were merged. */
  lemma {:induction false} RowsInOrder(sig: Signals, d: Doc, os: seq<Obs>, cfg: Config, now: Time)
    requires Shape(d) && Unseen(d, os) && |d.rows| + |os| <= MAX_SIGHTINGS
    ensures MergeAll(sig, d, os, cfg, now).rows == d.rows + Built(os)
  {
    if os == [] {
      assert d.rows + Built(os) == d.rows;
    } else {
      var before, o := os[..|os| - 1], os[|os| - 1];
      LastMerge(sig, d, os, cfg, now);
      RowsInOrder(sig, d, before, cfg, now);
      RecordAppends(d.rows, before, o);
      assert os == before + [o];
    }
  }

  lemma RecordAppends(base: seq<Row>, before: seq<Obs>, o: Obs)
    requires Trim(o.hash) != "" && Trim(o.hash) !in Hashes(base + Built(before)) && |base| + |before| < MAX_SIGHTINGS
    ensures Record(base + Built(before), o) == base + Built(before + [o])
  {
    RecordMissing(base + Built(before), o);
    assert Built(before + [o]) == Built(before) + [BuildRow(o)];
    assert base + Built(before) + [BuildRow(o)] == base + Built(before + [o]);
  }

  /** A merge past the cap sorts. */
  lemma SortedPastCap(sig: Signals, d: Doc, os: seq<Obs>, cfg: Config, now: Time)
    requires Shape(d) && Unseen(d, os) && os != [] && |d.rows| + |os| > MAX_SIGHTINGS
    ensures Descending(MergeAll(sig, d, os, cfg, now).rows)
  {
    var before, o := os[..|os| - 1], os[|os| - 1];
    var rows := MergeAll(sig, d, before, cfg, now).rows;
    LastMerge(sig, d, os, cfg, now);
    RowCount(sig, d, before, cfg, now);
    RecordMissing(rows, o);
    SortRowsSorts(rows + [BuildRow(o)]);
  }

  lemma {:induction false} DescendingUnique(a: seq<Row>, b: seq<Row>)
    requires Descending(a) && Descending(b) && DistinctHashes(a) && multiset(a) == multiset(b)
    ensures a == b
  {
    assert |a| == |multiset(a)| == |multiset(b)| == |b|;
    if a != [] {
      SameHead(a, b);
      assert a == [a[0]] + a[1..] && b == [b[0]] + b[1..];
      assert multiset(a[1..]) == multiset(a) - multiset{a[0]};
      assert multiset(b[1..]) == multiset(b) - multiset{b[0]};
      DescendingUnique(a[1..], b[1..]);
    }
  }

  lemma SameHead(a: seq<Row>, b: seq<Row>)
    requires Descending(a) && Descending(b) && DistinctHashes(a) && multiset(a) == multiset(b) && a != [] && b != []
    ensures a[0] == b[0]
  {
    assert a[0] in multiset(b) && b[0] in multiset(a);
    var i :| 0 <= i < |b| && b[i] == a[0];
    var j :| 0 <= j < |a| && a[j] == b[0];
    HigherTotal(RankOf(a[0]), RankOf(b[0]));
  }

  // ---------------------------------------------------------------- the heaviest row

  /** The first of the heaviest rows of the window is chosen. */
  lemma {:induction false} BestAt(rows: seq<Row>, i: nat, c: Config, now: Time)
    requires Positive(c) && i < |rows| && Within(rows[i], now, c.canonicalWindow)
    requires forall q | q in rows && Within(q, now, c.canonicalWindow) :: Weight(q, c, now) <= Weight(rows[i], c, now)
    requires forall j | 0 <= j < i && Within(rows[j], now, c.canonicalWindow) ::
               Weight(rows[j], c, now) < Weight(rows[i], c, now)
    ensures Best(rows, c, now) == (rows[i].hash, Weight(rows[i], c, now))
  {
    var n := |rows| - 1;
    var before := rows[..n];
    assert rows[n] in rows;
    if i < n {
      assert before[i] == rows[i];
      forall q | q in before ensures q in rows {}
      BestAt(before, i, c, now);
    } else {
      BestIsHeaviest(before, c, now);
      WeightNonNegative(rows[i], c, now);
      var (h, w) := Best(before, c, now);
      if w != -1.0 || h != "" {
        var r :| r in before && Within(r, now, c.canonicalWindow) && r.hash == h && Weight(r, c, now) == w;
        var j :| 0 <= j < |before| && before[j] == r;
        assert rows[j] == r;
      }
    }
  }

  /** A hash is chosen exactly if the window holds a row. */
  lemma BestExists(rows: seq<Row>, c: Config, now: Time)
    requires Positive(c) && forall r | r in rows :: r.hash != ""
    ensures Best(rows, c, now).0 != "" <==> exists r | r in rows :: Within(r, now, c.canonicalWindow)
  {
    BestIsHeaviest(rows, c, now);
    if q :| q in rows && Within(q, now, c.canonicalWindow) {
      WeightNonNegative(q, c, now);
    }
  }

  /** The old rows and those the sightings bring. */
  ghost predicate InPool(d: Doc, s: set<Obs>, r: Row) {
    r in d.rows || r in Image(BuildRow, s)
  }

  ghost predicate Hit(d: Doc, s: set<Obs>, c: Config, now: Time) {
    exists r | InPool(d, s, r) :: Within(r, now, c.canonicalWindow)
  }

  /** r is a heaviest row of the canonical window among the old rows and the new ones. */
  ghost predicate Heavy(d: Doc, s: set<Obs>, c: Config, now: Time, r: Row) {
    && InPool(d, s, r) && Within(r, now, c.canonicalWindow)
    && forall q | InPool(d, s, q) && Within(q, now, c.canonicalWindow) :: Weight(q, c, now) <= Weight(r, c, now)
  }

  lemma FoldRows(sig: Signals, d: Doc, os: seq<Obs>, cfg: Config, now: Time)
    requires Shape(d) && Unseen(d, os)
    ensures var rows := MergeAll(sig, d, os, cfg, now).rows;
            && (forall r | r in rows :: InPool(d, SetOf(os), r) && r.hash != "")
            && DistinctHashes(rows) && IsTop(Ranks(rows), Ranks(d.rows) + Image(BuiltRank, SetOf(os)))
  {
    FoldSums(sig, d, os, cfg, now);
    var r := MergeAll(sig, d, os, cfg, now);
    forall x | x in r.rows ensures x.hash != "" {
      assert x.hash in r.hashes;
    }
  }

  /** Trimming never empties the window: what it drops is older than all it keeps. */
  lemma WindowSurvives(rows: seq<Row>, s: set<Rank>, x: Rank, cutoff: Time)
    requires IsTop(Ranks(rows), s) && x in s && x.event >= cutoff > 0
    ensures exists r | r in rows :: Event(r) >= cutoff
  {
    if x in Ranks(rows) {
      var r :| r in rows && RankOf(r) == x;
    } else {
      SubsetSize(Ranks(rows), s);
      assert |Ranks(rows)| == MAX_SIGHTINGS;
      var a :| a in Ranks(rows);
      assert Higher(a, x);
      var r :| r in rows && RankOf(r) == a;
    }
  }

  lemma HitShows(sig: Signals, d: Doc, os: seq<Obs>, cfg: Config, now: Time, c: Config)
    requires Shape(d) && Unseen(d, os) && c.canonicalWindow < now
    ensures Hit(d, SetOf(os), c, now) <==>
            exists r | r in MergeAll(sig, d, os, cfg, now).rows :: Within(r, now, c.canonicalWindow)
  {
    var rows, s := MergeAll(sig, d, os, cfg, now).rows, SetOf(os);
    FoldRows(sig, d, os, cfg, now);
    if Hit(d, s, c, now) {
      var q :| InPool(d, s, q) && Within(q, now, c.canonicalWindow);
      assert RankOf(q) in Ranks(d.rows) + Image(BuiltRank, s) by {
        if q !in d.rows {
          var o :| o in s && BuildRow(o) == q;
          assert BuiltRank(o) == RankOf(q);
        }
      }
      WindowSurvives(rows, Ranks(d.rows) + Image(BuiltRank, s), RankOf(q), now - c.canonicalWindow);
    }
  }

  // ---------------------------------------------------------------- claims

  /** The index of the first sighting with a buyer role. */
  function FirstBuyer(sig: Signals, os: seq<Obs>): (i: nat)
    ensures i <= |os|
    ensures i < |os| ==> sig.buyer(os[i].stack, os[i].text)
    ensures forall j | 0 <= j < i :: !sig.buyer(os[j].stack, os[j].text)
  {
    if os == [] then 0
    else
      var i, n := FirstBuyer(sig, os[..|os| - 1]), |os| - 1;
      if i < n then i else if sig.buyer(os[n].stack, os[n].text) then n else |os|
  }

  /** The canonical hash of a fold that heat never touches: the first buyer's, or the first one's if there was none. */
  function Claimed(sig: Signals, d: Doc, os: seq<Obs>): string {
    var i := FirstBuyer(sig, os);
    if !d.buyerSeen && i < |os| then Trim(os[i].hash)
    else if os != [] && d.canonical == "" then Trim(os[0].hash)
    else d.canonical
  }

  /** Heat is off, or finds no row in its window. */
  ghost predicate Untouched(d: Doc, s: set<Obs>, cfg: Config, now: Time) {
    cfg.enabled ==> now != 0 && !Hit(d, s, Normalize(cfg), now)
  }

  lemma RecomputeUntouched(x: Doc, cfg: Config, now: Time, reading: Time)
    requires forall r | r in x.rows :: r.hash != ""
    requires cfg.enabled ==> now != 0 && forall r | r in x.rows :: !Within(r, now, Normalize(cfg).canonicalWindow)
    ensures Recompute(x, cfg, now, reading).canonical == x.canonical
  {
    NormalizeIsPositive(cfg);
    if cfg.enabled {
      BestExists(x.rows, Normalize(cfg), now);
    }
  }

  /** m has the canonical hash and the buyer flag the claims of the sightings give. */
  ghost predicate ClaimsOf(sig: Signals, d: Doc, os: seq<Obs>, m: Doc) {
    m.canonical == Claimed(sig, d, os) && m.buyerSeen == (d.buyerSeen || FirstBuyer(sig, os) < |os|)
  }

  lemma {:induction false} ClaimFold(sig: Signals, d: Doc, os: seq<Obs>, cfg: Config, now: Time)
    requires Shape(d) && Unseen(d, os) && Untouched(d, SetOf(os), cfg, now)
    ensures ClaimsOf(sig, d, os, MergeAll(sig, d, os, cfg, now))
  {
    if os != [] {
      BeforeLast(d, os, cfg, now);
      ClaimFold(sig, d, os[..|os| - 1], cfg, now);
      ClaimLast(sig, d, os, cfg, now);
    }
  }

  lemma BeforeLast(d: Doc, os: seq<Obs>, cfg: Config, now: Time)
    requires os != [] && Unseen(d, os) && Untouched(d, SetOf(os), cfg, now)
    ensures Unseen(d, os[..|os| - 1]) && Untouched(d, SetOf(os[..|os| - 1]), cfg, now)
    ensures forall p | p in os :: Trim(p.hash) != ""
    ensures os == os[..|os| - 1] + [os[|os| - 1]]
  {
    FewerHits(d, SetOf(os[..|os| - 1]), SetOf(os), cfg, now);
  }

  lemma ClaimLast(sig: Signals, d: Doc, os: seq<Obs>, cfg: Config, now: Time)
    requires Shape(d) && Unseen(d, os) && Untouched(d, SetOf(os), cfg, now) && os != []
    requires ClaimsOf(sig, d, os[..|os| - 1], MergeAll(sig, d, os[..|os| - 1], cfg, now))
    ensures ClaimsOf(sig, d, os, MergeAll(sig, d, os, cfg, now))
  {
    var before, o := os[..|os| - 1], os[|os| - 1];
    var r, m := MergeAll(sig, d, before, cfg, now), MergeAll(sig, d, os, cfg, now);
    LastMerge(sig, d, os, cfg, now);
    FoldRows(sig, d, os, cfg, now);
    BeforeLast(d, os, cfg, now);
    ClaimMore(sig, d, before, r, o, cfg, now, SetOf(os), m);
  }

  lemma ClaimMore(
      sig: Signals, d: Doc, before: seq<Obs>, r: Doc, o: Obs, cfg: Config, now: Time, s: set<Obs>, m: Doc)
    requires (forall p | p in before :: Trim(p.hash) != "") && Trim(o.hash) != "" && Untouched(d, s, cfg, now)
    requires m == Recompute(Absorb(sig, r, o), cfg, now, o.clock.atHeat) && m.rows == Absorb(sig, r, o).rows
    requires forall x | x in m.rows :: InPool(d, s, x) && x.hash != ""
    requires ClaimsOf(sig, d, before, r)
    ensures ClaimsOf(sig, d, before + [o], m)
  {
    MergeClaims(sig, d, s, r, o, cfg, now);
    ClaimStep(sig, d, before, o);
  }

  /** A merge that heat does not touch decides the canonical hash and the buyer flag by the claim alone. */
  lemma MergeClaims(sig: Signals, d: Doc, s: set<Obs>, r: Doc, o: Obs, cfg: Config, now: Time)
    requires Untouched(d, s, cfg, now)
    requires forall x | x in Absorb(sig, r, o).rows :: InPool(d, s, x) && x.hash != ""
    ensures var m, buyer := Recompute(Absorb(sig, r, o), cfg, now, o.clock.atHeat), sig.buyer(o.stack, o.text);
            && m.canonical == (if r.canonical == "" || (buyer && !r.buyerSeen) then Trim(o.hash) else r.canonical)
            && m.buyerSeen == (r.buyerSeen || buyer)
  {
    var x := Absorb(sig, r, o);
    RecomputeFrame(x, cfg, now, o.clock.atHeat);
    RecomputeUntouched(x, cfg, now, o.clock.atHeat);
  }

  lemma FewerHits(d: Doc, s: set<Obs>, s': set<Obs>, cfg: Config, now: Time)
    requires s <= s' && Untouched(d, s', cfg, now)
    ensures Untouched(d, s, cfg, now)
  {
    forall r | InPool(d, s, r) ensures InPool(d, s', r) {}
  }

  /** One more claim, as Flag decides it. */
  lemma ClaimStep(sig: Signals, d: Doc, before: seq<Obs>, o: Obs)
    requires (forall p | p in before :: Trim(p.hash) != "") && Trim(o.hash) != ""
    ensures var c, seen := Claimed(sig, d, before), d.buyerSeen || FirstBuyer(sig, before) < |before|;
            var buyer := sig.buyer(o.stack, o.text);
            && Claimed(sig, d, before + [o]) == (if c == "" || (buyer && !seen) then Trim(o.hash) else c)
            && (d.buyerSeen || FirstBuyer(sig, before + [o]) < |before| + 1) == (seen || buyer)
  {
    FirstBuyerSnoc(sig, before, o);
    if before == [] {
      assert before + [o] == [o];
    } else {
      ClaimLater(sig, d, before, o);
    }
  }

  lemma ClaimLater(sig: Signals, d: Doc, before: seq<Obs>, o: Obs)
    requires (forall p | p in before :: Trim(p.hash) != "") && before != []
    ensures Claimed(sig, d, before) != ""
    ensures var i := FirstBuyer(sig, before);
            Claimed(sig, d, before + [o]) ==
            if sig.buyer(o.stack, o.text) && !d.buyerSeen && i == |before| then Trim(o.hash)
            else Claimed(sig, d, before)
  {
    var i, all := FirstBuyer(sig, before), before + [o];
    FirstBuyerSnoc(sig, before, o);
    assert all[0] == before[0] && before[0] in before && all[|before|] == o;
    if i < |before| {
      assert all[i] == before[i] && before[i] in before;
    }
  }

  lemma FirstBuyerSnoc(sig: Signals, before: seq<Obs>, o: Obs)
    ensures var i := FirstBuyer(sig, before);
            FirstBuyer(sig, before + [o]) ==
            if i < |before| then i else if sig.buyer(o.stack, o.text) then |before| else |before| + 1
  {
    assert (before + [o])[..|before|] == before;
  }

  /** At most one sighting can claim the canonical hash. */
  ghost predicate OneClaim(sig: Signals, d: Doc, s: set<Obs>) {
    if !d.buyerSeen && BuyersOf(sig, s) != {}
    then forall o, p | o in BuyersOf(sig, s) && p in BuyersOf(sig, s) :: o == p
    else d.canonical != "" || forall o, p | o in s && p in s :: o == p
  }

  lemma FirstBuyerIs(sig: Signals, os: seq<Obs>)
    ensures FirstBuyer(sig, os) < |os| <==> BuyersOf(sig, SetOf(os)) != {}
    ensures var i := FirstBuyer(sig, os); i < |os| ==> os[i] in BuyersOf(sig, SetOf(os))
  {
    var i, s := FirstBuyer(sig, os), SetOf(os);
    if i < |os| {
      assert os[i] in s && os[i] in BuyersOf(sig, s);
    } else {
      forall o | o in s ensures o !in BuyersOf(sig, s) {
        var j :| 0 <= j < |os| && os[j] == o;
      }
    }
  }

  lemma OneClaimSuffices(sig: Signals, d: Doc, xs: seq<Obs>, ys: seq<Obs>)
    requires SetOf(xs) == SetOf(ys) && OneClaim(sig, d, SetOf(xs))
    ensures Claimed(sig, d, xs) == Claimed(sig, d, ys)
  {
    FirstBuyerIs(sig, xs);
    FirstBuyerIs(sig, ys);
    if xs != [] {
      assert xs[0] in SetOf(xs);
    }
    if ys != [] {
      assert ys[0] in SetOf(xs);
    }
    assert xs == [] <==> SetOf(xs) == {};
    assert ys == [] <==> SetOf(ys) == {};
  }

  /** With two claimants, whoever comes first has it. */
  lemma TwoClaims(sig: Signals, d: Doc, xs: seq<Obs>) returns (i: nat, j: nat)
    requires Unseen(d, xs) && !OneClaim(sig, d, SetOf(xs))
    ensures i < |xs| && j < |xs| && xs[i] != xs[j]
    ensures Claimed(sig, d, ToFront(xs, i)) == Trim(xs[i].hash) && Claimed(sig, d, ToFront(xs, j)) == Trim(xs[j].hash)
  {
    var s := SetOf(xs);
    var buyers := !d.buyerSeen && BuyersOf(sig, s) != {};
    var from := if buyers then BuyersOf(sig, s) else s;
    var o, p :| o in from && p in from && o != p;
    i :| 0 <= i < |xs| && xs[i] == o;
    j :| 0 <= j < |xs| && xs[j] == p;
    FrontClaims(sig, d, xs, i, buyers);
    FrontClaims(sig, d, xs, j, buyers);
  }

  lemma FrontClaims(sig: Signals, d: Doc, xs: seq<Obs>, i: nat, buyers: bool)
    requires i < |xs| && buyers == (!d.buyerSeen && BuyersOf(sig, SetOf(xs)) != {})
    requires if buyers then xs[i] in BuyersOf(sig, SetOf(xs)) else d.canonical == ""
    ensures Claimed(sig, d, ToFront(xs, i)) == Trim(xs[i].hash)
  {
    var ys := ToFront(xs, i);
    FirstBuyerIs(sig, ys);
    ToFrontPermutes(xs, i);
    forall o ensures o in xs <==> o in ys {
      assert o in multiset(xs) <==> o in multiset(ys);
    }
    assert SetOf(ys) == SetOf(xs);
    assert ys[0] == xs[i];
  }

  // ---------------------------------------------------------------- the exact condition

  /** At most one of the sightings brings a heaviest row. */
  ghost predicate OneNewHeavy(d: Doc, s: set<Obs>, c: Config, now: Time) {
    forall o, p | o in s && p in s && Heavy(d, s, c, now, BuildRow(o)) && Heavy(d, s, c, now, BuildRow(p)) ::
      o == p
  }

  /**
   * No order of the sightings s merged into d shows in the canonical hash. Where heat finds a row in its
   * window: the timeline overflows and ends sorted, or an old row is among the heaviest, or only one new row
   * is. Elsewhere: at most one sighting has a claim.
   */
  ghost predicate OrderFree(sig: Signals, d: Doc, s: set<Obs>, cfg: Config, now: Time) {
    var c := Normalize(cfg);
    if cfg.enabled && Hit(d, s, c, now) then
      || |d.rows| + |s| > MAX_SIGHTINGS
      || (exists r | r in d.rows :: Heavy(d, s, c, now, r))
      || OneNewHeavy(d, s, c, now)
    else OneClaim(sig, d, s)
  }

  /** Where heat finds a row in its window, it decides. */
  lemma HeatDecides(sig: Signals, d: Doc, os: seq<Obs>, cfg: Config, now: Time)
    requires Shape(d) && Unseen(d, os) && os != [] && cfg.enabled && Normalize(cfg).canonicalWindow < now
    requires Hit(d, SetOf(os), Normalize(cfg), now)
    ensures var r := MergeAll(sig, d, os, cfg, now); r.canonical == Best(r.rows, Normalize(cfg), now).0
  {
    var c := Normalize(cfg);
    NormalizeIsPositive(cfg);
    LastMerge(sig, d, os, cfg, now);
    FoldRows(sig, d, os, cfg, now);
    HitShows(sig, d, os, cfg, now, c);
    BestExists(MergeAll(sig, d, os, cfg, now).rows, c, now);
    var o, r := os[|os| - 1], MergeAll(sig, d, os[..|os| - 1], cfg, now);
    RecomputeFrame(Absorb(sig, r, o), cfg, now, o.clock.atHeat);
  }

  /** In a timeline with room, the pool is the old rows followed by the new ones. */
  lemma PoolInOrder(d: Doc, os: seq<Obs>, r: Row)
    ensures InPool(d, SetOf(os), r) <==> r in d.rows + Built(os)
  {
    if r in Built(os) {
      var i :| 0 <= i < |os| && Built(os)[i] == r;
      assert os[i] in SetOf(os);
    }
    if r in Image(BuildRow, SetOf(os)) {
      var o :| o in os && BuildRow(o) == r;
      var i :| 0 <= i < |os| && os[i] == o;
      assert Built(os)[i] == r;
    }
  }

  /** The first heavy row of a timeline with room is the one chosen. */
  lemma FirstHeavyWins(d: Doc, os: seq<Obs>, c: Config, now: Time, i: nat)
    requires Positive(c) && i < |d.rows| + |os| && Heavy(d, SetOf(os), c, now, (d.rows + Built(os))[i])
    requires forall j | 0 <= j < i :: !Heavy(d, SetOf(os), c, now, (d.rows + Built(os))[j])
    ensures Best(d.rows + Built(os), c, now).0 == (d.rows + Built(os))[i].hash
  {
    var rows, s := d.rows + Built(os), SetOf(os);
    forall q | q in rows ensures InPool(d, s, q) {
      PoolInOrder(d, os, q);
    }
    forall j | 0 <= j < i && Within(rows[j], now, c.canonicalWindow)
      ensures Weight(rows[j], c, now) < Weight(rows[i], c, now)
    {
      assert InPool(d, s, rows[j]);
      LighterThanHeavy(d, s, c, now, rows[j], rows[i]);
    }
    BestAt(rows, i, c, now);
  }

  lemma LighterThanHeavy(d: Doc, s: set<Obs>, c: Config, now: Time, r: Row, top: Row)
    requires Heavy(d, s, c, now, top) && InPool(d, s, r) && Within(r, now, c.canonicalWindow) && !Heavy(d, s, c, now, r)
    ensures Weight(r, c, now) < Weight(top, c, now)
  {
  }

  lemma FirstOldHeavy(d: Doc, s: set<Obs>, c: Config, now: Time, r: Row) returns (i: nat)
    requires r in d.rows && Heavy(d, s, c, now, r)
    ensures i < |d.rows| && Heavy(d, s, c, now, d.rows[i]) && forall j | 0 <= j < i :: !Heavy(d, s, c, now, d.rows[j])
  {
    var k :| 0 <= k < |d.rows| && d.rows[k] == r;
    i := FirstHeavyTo(d, s, c, now, k);
  }

  lemma {:induction false} FirstHeavyTo(d: Doc, s: set<Obs>, c: Config, now: Time, k: nat) returns (i: nat)
    requires k < |d.rows| && Heavy(d, s, c, now, d.rows[k])
    ensures i <= k && Heavy(d, s, c, now, d.rows[i]) && forall j | 0 <= j < i :: !Heavy(d, s, c, now, d.rows[j])
  {
    if j :| 0 <= j < k && Heavy(d, s, c, now, d.rows[j]) {
      i := FirstHeavyTo(d, s, c, now, j);
    } else {
      i := k;
    }
  }

  lemma SumsSize(d: Doc, xs: seq<Obs>)
    requires Unseen(d, xs)
    ensures |SetOf(xs)| == |xs| && (xs == [] <==> SetOf(xs) == {})
  {
    UnseenSet(d, xs);
  }

  /** Past the cap both orders end with the same rows in the same order. */
  lemma OverflowSame(sig: Signals, d: Doc, xs: seq<Obs>, ys: seq<Obs>, cfg: Config, now: Time)
    requires Shape(d) && Unseen(d, xs) && multiset(xs) == multiset(ys) && now != 0
    requires xs != [] && |d.rows| + |xs| > MAX_SIGHTINGS
    ensures MergeAll(sig, d, xs, cfg, now).rows == MergeAll(sig, d, ys, cfg, now).rows
  {
    UnseenPermuted(d, xs, ys);
    OrderIndependence(sig, d, xs, ys, cfg, now);
    SortedPastCap(sig, d, xs, cfg, now);
    SortedPastCap(sig, d, ys, cfg, now);
    FoldRows(sig, d, xs, cfg, now);
    DescendingUnique(MergeAll(sig, d, xs, cfg, now).rows, MergeAll(sig, d, ys, cfg, now).rows);
  }

  /** An old row among the heaviest keeps the choice, whatever is appended. */
  lemma OldHeavySame(d: Doc, xs: seq<Obs>, ys: seq<Obs>, c: Config, now: Time, r: Row)
    requires Positive(c) && SetOf(xs) == SetOf(ys) && r in d.rows && Heavy(d, SetOf(xs), c, now, r)
    ensures Best(d.rows + Built(xs), c, now).0 == Best(d.rows + Built(ys), c, now).0
  {
    var i := FirstOldHeavy(d, SetOf(xs), c, now, r);
    FirstHeavyWins(d, xs, c, now, i);
    FirstHeavyWins(d, ys, c, now, i);
  }

  /** The chosen hash is that of a heavy row. */
  lemma ChosenIsHeavy(d: Doc, os: seq<Obs>, c: Config, now: Time) returns (r: Row)
    requires Positive(c) && Hit(d, SetOf(os), c, now)
    ensures Heavy(d, SetOf(os), c, now, r) && r.hash == Best(d.rows + Built(os), c, now).0
  {
    var rows, s := d.rows + Built(os), SetOf(os);
    forall q ensures InPool(d, s, q) <==> q in rows {
      PoolInOrder(d, os, q);
    }
    BestIsHeaviest(rows, c, now);
    var q :| InPool(d, s, q) && Within(q, now, c.canonicalWindow);
    WeightNonNegative(q, c, now);
    var (h, w) := Best(rows, c, now);
    r :| r in rows && Within(r, now, c.canonicalWindow) && r.hash == h && Weight(r, c, now) == w;
  }

  /** No old row is among the heaviest, and only one new one is. */
  lemma OneNewSame(d: Doc, xs: seq<Obs>, ys: seq<Obs>, c: Config, now: Time)
    requires Positive(c) && SetOf(xs) == SetOf(ys) && Hit(d, SetOf(xs), c, now)
    requires forall r | r in d.rows :: !Heavy(d, SetOf(xs), c, now, r)
    requires OneNewHeavy(d, SetOf(xs), c, now)
    ensures Best(d.rows + Built(xs), c, now).0 == Best(d.rows + Built(ys), c, now).0
  {
    var s := SetOf(xs);
    var r := ChosenIsHeavy(d, xs, c, now);
    var q := ChosenIsHeavy(d, ys, c, now);
    assert r in Image(BuildRow, s) && q in Image(BuildRow, s);
    var o :| o in s && BuildRow(o) == r;
    var p :| p in s && BuildRow(p) == q;
  }

  /** Two new rows tie for the heaviest above all old ones: whoever is merged first has it. */
  lemma FrontIsChosen(d: Doc, xs: seq<Obs>, c: Config, now: Time, i: nat)
    requires Positive(c) && i < |xs| && Heavy(d, SetOf(xs), c, now, BuildRow(xs[i]))
    requires forall r | r in d.rows :: !Heavy(d, SetOf(xs), c, now, r)
    ensures Best(d.rows + Built(ToFront(xs, i)), c, now).0 == Trim(xs[i].hash)
  {
    var ys, n := ToFront(xs, i), |d.rows|;
    ToFrontPermutes(xs, i);
    forall o ensures o in xs <==> o in ys {
      assert o in multiset(xs) <==> o in multiset(ys);
    }
    assert SetOf(ys) == SetOf(xs);
    var rows := d.rows + Built(ys);
    assert rows[n] == Built(ys)[0] == BuildRow(xs[i]);
    assert forall j | 0 <= j < n :: rows[j] == d.rows[j] && d.rows[j] in d.rows;
    FirstHeavyWins(d, ys, c, now, n);
  }

  lemma FreeSuffices(sig: Signals, d: Doc, xs: seq<Obs>, ys: seq<Obs>, cfg: Config, now: Time)
    requires Shape(d) && Unseen(d, xs) && Normalize(cfg).canonicalWindow < now && multiset(ys) == multiset(xs)
    requires OrderFree(sig, d, SetOf(xs), cfg, now)
    ensures MergeAll(sig, d, ys, cfg, now).canonical == MergeAll(sig, d, xs, cfg, now).canonical
  {
    var c, s := Normalize(cfg), SetOf(xs);
    NormalizeIsPositive(cfg);
    UnseenPermuted(d, xs, ys);
    SumsSize(d, xs);
    if cfg.enabled && Hit(d, s, c, now) && xs != [] {
      HeatDecides(sig, d, xs, cfg, now);
      HeatDecides(sig, d, ys, cfg, now);
      if |d.rows| + |s| > MAX_SIGHTINGS {
        OverflowSame(sig, d, xs, ys, cfg, now);
      } else {
        RowsInOrder(sig, d, xs, cfg, now);
        RowsInOrder(sig, d, ys, cfg, now);
        if r :| r in d.rows && Heavy(d, s, c, now, r) {
          OldHeavySame(d, xs, ys, c, now, r);
        } else {
          OneNewSame(d, xs, ys, c, now);
        }
      }
    } else if xs != [] {
      ClaimFold(sig, d, xs, cfg, now);
      ClaimFold(sig, d, ys, cfg, now);
      OneClaimSuffices(sig, d, xs, ys);
    }
  }

  /** Two sightings whose order shows: each, merged first, becomes canonical. */
  lemma OrderShows(sig: Signals, d: Doc, xs: seq<Obs>, cfg: Config, now: Time) returns (i: nat, j: nat)
    requires Shape(d) && Unseen(d, xs) && Normalize(cfg).canonicalWindow < now
    requires !OrderFree(sig, d, SetOf(xs), cfg, now)
    ensures i < |xs| && j < |xs| && Trim(xs[i].hash) != Trim(xs[j].hash)
    ensures MergeAll(sig, d, ToFront(xs, i), cfg, now).canonical == Trim(xs[i].hash)
    ensures MergeAll(sig, d, ToFront(xs, j), cfg, now).canonical == Trim(xs[j].hash)
  {
    var c, s := Normalize(cfg), SetOf(xs);
    NormalizeIsPositive(cfg);
    SumsSize(d, xs);
    if cfg.enabled && Hit(d, s, c, now) {
      i, j := TwoHeavy(d, xs, c, now);
      FrontByHeat(sig, d, xs, cfg, now, i);
      FrontByHeat(sig, d, xs, cfg, now, j);
    } else {
      i, j := TwoClaims(sig, d, xs);
      FrontByClaim(sig, d, xs, cfg, now, i);
      FrontByClaim(sig, d, xs, cfg, now, j);
    }
    DifferentHashes(d, xs, i, j);
  }

  lemma DifferentHashes(d: Doc, xs: seq<Obs>, i: nat, j: nat)
    requires Unseen(d, xs) && i < |xs| && j < |xs| && xs[i] != xs[j]
    ensures Trim(xs[i].hash) != Trim(xs[j].hash)
  {
    assert i != j;
  }

  lemma TwoHeavy(d: Doc, xs: seq<Obs>, c: Config, now: Time) returns (i: nat, j: nat)
    requires !OneNewHeavy(d, SetOf(xs), c, now)
    ensures i < |xs| && j < |xs| && xs[i] != xs[j]
    ensures Heavy(d, SetOf(xs), c, now, BuildRow(xs[i])) && Heavy(d, SetOf(xs), c, now, BuildRow(xs[j]))
  {
    var s := SetOf(xs);
    var o, p :| o in s && p in s && Heavy(d, s, c, now, BuildRow(o)) && Heavy(d, s, c, now, BuildRow(p)) && o != p;
    i :| 0 <= i < |xs| && xs[i] == o;
    j :| 0 <= j < |xs| && xs[j] == p;
  }

  lemma FrontByHeat(sig: Signals, d: Doc, xs: seq<Obs>, cfg: Config, now: Time, i: nat)
    requires Shape(d) && Unseen(d, xs) && Normalize(cfg).canonicalWindow < now && i < |xs|
    requires cfg.enabled && |d.rows| + |SetOf(xs)| <= MAX_SIGHTINGS
    requires Heavy(d, SetOf(xs), Normalize(cfg), now, BuildRow(xs[i]))
    requires forall r | r in d.rows :: !Heavy(d, SetOf(xs), Normalize(cfg), now, r)
    ensures MergeAll(sig, d, ToFront(xs, i), cfg, now).canonical == Trim(xs[i].hash)
  {
    var ys := ToFront(xs, i);
    NormalizeIsPositive(cfg);
    ToFrontPermutes(xs, i);
    UnseenPermuted(d, xs, ys);
    SumsSize(d, xs);
    HeatDecides(sig, d, ys, cfg, now);
    RowsInOrder(sig, d, ys, cfg, now);
    FrontIsChosen(d, xs, Normalize(cfg), now, i);
  }

  lemma FrontByClaim(sig: Signals, d: Doc, xs: seq<Obs>, cfg: Config, now: Time, i: nat)
    requires Shape(d) && Unseen(d, xs) && Untouched(d, SetOf(xs), cfg, now) && i < |xs|
    requires Claimed(sig, d, ToFront(xs, i)) == Trim(xs[i].hash)
    ensures MergeAll(sig, d, ToFront(xs, i), cfg, now).canonical == Trim(xs[i].hash)
  {
    ToFrontPermutes(xs, i);
    UnseenPermuted(d, xs, ToFront(xs, i));
    ClaimFold(sig, d, ToFront(xs, i), cfg, now);
  }

  /**
   * The canonical hash is the same for every order of the sightings exactly under OrderFree. The instant lies
   * further from the zero time than the window is wide, as every clock reading does.
   */
  lemma CanonicalExactlyWhen(sig: Signals, d: Doc, xs: seq<Obs>, cfg: Config, now: Time)
    requires Shape(d) && Unseen(d, xs) && Normalize(cfg).canonicalWindow < now
    ensures OrderFree(sig, d, SetOf(xs), cfg, now) <==>
            forall ys | multiset(ys) == multiset(xs) ::
              MergeAll(sig, d, ys, cfg, now).canonical == MergeAll(sig, d, xs, cfg, now).canonical
  {
    if OrderFree(sig, d, SetOf(xs), cfg, now) {
      forall ys | multiset(ys) == multiset(xs)
        ensures MergeAll(sig, d, ys, cfg, now).canonical == MergeAll(sig, d, xs, cfg, now).canonical
      {
        FreeSuffices(sig, d, xs, ys, cfg, now);
      }
    } else {
      var i, j := OrderShows(sig, d, xs, cfg, now);
      ToFrontPermutes(xs, i);
      ToFrontPermutes(xs, j);
      var ys, zs := ToFront(xs, i), ToFront(xs, j);
      assert MergeAll(sig, d, ys, cfg, now).canonical != MergeAll(sig, d, zs, cfg, now).canonical;
    }
  }

  /** With heat off, of two buyer sightings the one merged first claims the canonical hash. */
  lemma CanonicalDependsOnOrder(sig: Signals, d: Doc, x: Obs, y: Obs, cfg: Config, now: Time)
    requires Shape(d) && Unseen(d, [x, y]) && !d.buyerSeen && !cfg.enabled
    requires sig.buyer(x.stack, x.text) && sig.buyer(y.stack, y.text)
    ensures MergeAll(sig, d, [x, y], cfg, now).canonical == Trim(x.hash)
    ensures MergeAll(sig, d, [y, x], cfg, now).canonical == Trim(y.hash)
  {
    var xy, yx := [x, y], [y, x];
    assert xy[0] == x && yx[0] == y;
    assert multiset(xy) == multiset(yx);
    UnseenPermuted(d, xy, yx);
    ClaimFold(sig, d, xy, cfg, now);
    ClaimFold(sig, d, yx, cfg, now);
  }
}
