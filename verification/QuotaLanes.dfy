/** Which bucket a request waits for, and how far apart a bucket's requests are, in the configuration's own terms. */
module QuotaLanes {
  import opened Quota
  import opened QuotaMachine
  import opened QuotaBuckets

  /** The requests a minute a share of the total gives: the whole part of it, but at least one. */
  predicate IsShare(total: int, percent: int, rpm: int) {
    rpm >= 1 && (rpm > 1 ==> rpm * 100 <= total * percent) && total * percent < (rpm + 1) * 100
  }

  /** The time between requests, in whole nanoseconds, at that many a minute. */
  predicate IsGap(rpm: int, gap: Time) {
    gap >= 1 && (gap > 1 ==> gap * rpm <= 60_000_000_000) && 60_000_000_000 < (gap + 1) * rpm
  }

  ghost predicate SpacesShare(total: int, percent: int, gap: Time) {
    exists rpm: int :: IsShare(total, percent, rpm) && IsGap(rpm, gap)
  }

  lemma RequestsAreShare(total: int, percent: int)
    ensures IsShare(total, percent, Requests(total, percent))
  {
    var x := total * percent;
    assert x == x / 100 * 100 + x % 100;
  }

  lemma GapIsGap(rpm: int)
    requires rpm >= 1
    ensures IsGap(rpm, Gap(rpm))
  {
    if rpm < MINUTE {
      var q, r := MINUTE / rpm, MINUTE % rpm;
      assert MINUTE == q * rpm + r;
      assert (q + 1) * rpm == q * rpm + rpm;
    } else {
      assert 2 * rpm > MINUTE;
    }
  }

  lemma ShareIsSpaced(total: int, percent: int)
    ensures SpacesShare(total, percent, Gap(Requests(total, percent)))
  {
    RequestsAreShare(total, percent);
    GapIsGap(Requests(total, percent));
  }

  /** Each bucket's gap, from the configured rates and the split in effect. */
  lemma ConfiguredGaps(rpm: int, embedRPM: int, split: Split, used: Split)
    requires used == if split.critical + split.high + split.normal + split.low == 100 && split.critical >= 1
                     then split else Split(20, 40, 25, 15)
    ensures var gaps, total := Gaps(rpm, embedRPM, split), if rpm <= 0 then 10 else rpm;
            && SpacesShare(total, used.critical, gaps[0]) && SpacesShare(total, used.high, gaps[1])
            && SpacesShare(total, used.normal, gaps[2]) && SpacesShare(total, used.low, gaps[3])
            && IsGap(if embedRPM > 0 then embedRPM else if total < 3 then 1 else total / 3, gaps[4])
  {
    var total := if rpm <= 0 then 10 else rpm;
    SplitTakesEffect(split);
    ShareIsSpaced(total, used.critical);
    ShareIsSpaced(total, used.high);
    ShareIsSpaced(total, used.normal);
    ShareIsSpaced(total, used.low);
    GapIsGap(if embedRPM > 0 then embedRPM else if total < 3 then 1 else total / 3);
  }

  // ---------------------------------------------------------------- lanes

  /** The gap of the bucket a request of this kind belongs to: critical, high, normal, low or embedding. */
  predicate LaneGap(gaps: seq<Time>, r: Request, gap: Time)
    requires |gaps| == 5
  {
    && (r == Generate(0) ==> gap == gaps[0]) && (r == Generate(1) ==> gap == gaps[1])
    && (r == Generate(2) ==> gap == gaps[2]) && (r == Generate(3) ==> gap == gaps[3])
    && (r.Generate? && (r.priority < 0 || r.priority > 3) ==> gap == gaps[2])
    && (r == Embed ==> gap == gaps[4])
  }

  /** Two requests wait for one bucket: of one priority, or both normal or unknown, or both embeddings. */
  predicate SameLane(a: Request, b: Request) {
    || a == b
    || (a.Generate? && b.Generate? && a.priority !in {0, 1, 3} && b.priority !in {0, 1, 3})
  }

  lemma LanesAreBuckets(a: Request, b: Request)
    ensures SameLane(a, b) <==> BucketOf(a) == BucketOf(b)
  {
  }

  lemma BucketGap(gaps: seq<Time>, r: Request)
    requires |gaps| == 5
    ensures LaneGap(gaps, r, gaps[BucketOf(r)])
  {
  }

  datatype Admission = Admission(r: Request, at: Time)

  /** When each bucket admits again after the given admissions. */
  function NextAfter(start: Time, gaps: seq<Time>, log: seq<Admission>): (next: seq<Time>)
    requires |gaps| == 5
    ensures |next| == 5
  {
    if log == [] then seq(5, i => start)
    else
      var a := log[|log| - 1];
      Taken(NextAfter(start, gaps, log[..|log| - 1]), gaps, BucketOf(a.r), a.at)
  }

  /** Every admission came when its bucket admitted. */
  predicate InTurn(start: Time, gaps: seq<Time>, log: seq<Admission>)
    requires |gaps| == 5
  {
    log == [] ||
    var before, a := log[..|log| - 1], log[|log| - 1];
    InTurn(start, gaps, before) && NextAfter(start, gaps, before)[BucketOf(a.r)] <= a.at
  }

  lemma {:induction false} NextIs(start: Time, gaps: seq<Time>, log: seq<Admission>, r: Request, gap: Time)
    requires |gaps| == 5 && (forall b :: 0 <= b < 5 ==> gaps[b] > 0)
    requires InTurn(start, gaps, log) && LaneGap(gaps, r, gap)
    ensures var next := NextAfter(start, gaps, log)[BucketOf(r)];
            && next >= start && (forall e | e in log && SameLane(e.r, r) :: e.at + gap <= next)
            && (next == start || exists e | e in log :: SameLane(e.r, r) && next == e.at + gap)
  {
    BucketGap(gaps, r);
    if log != [] {
      var before, a := log[..|log| - 1], log[|log| - 1];
      assert log == before + [a];
      NextIs(start, gaps, before, r, gap);
      LanesAreBuckets(a.r, r);
    }
  }

  /**
   * A request can be admitted exactly from its own priority's gap after every earlier request of that priority on:
   * requests of other priorities never delay it.
   */
  lemma LanesAreApart(start: Time, gaps: seq<Time>, log: seq<Admission>, r: Request, at: Time, gap: Time)
    requires |gaps| == 5 && (forall b :: 0 <= b < 5 ==> gaps[b] > 0)
    requires InTurn(start, gaps, log) && LaneGap(gaps, r, gap)
    ensures InTurn(start, gaps, log + [Admission(r, at)]) <==>
            start <= at && forall e | e in log && SameLane(e.r, r) :: e.at + gap <= at
  {
    var all := log + [Admission(r, at)];
    assert all[..|log|] == log;
    NextIs(start, gaps, log, r, gap);
  }

  /** Over every run of the machine each bucket's admissions are its gap apart, and it admits as soon as they are. */
  lemma BucketsAdmitInTurn(lim: Limits, n: nat, start: Time, steps: seq<Step>, p: nat, b: nat)
    requires b < |lim.gaps|
    ensures var st := Run(lim, Initial(lim, n, start), steps);
            && |st.passes| == |lim.gaps|
            && (forall i, j :: 0 <= i < j < |st.passes[b]| && j == i + 1 ==>
                  st.passes[b][i] + lim.gaps[b] <= st.passes[b][j])
            && (Enabled(lim, st, Pass(p, b)) <==>
                  && p < |st.callers| && st.callers[p].Waiting?
                  && (st.passes[b] != [] ==> st.passes[b][|st.passes[b]| - 1] + lim.gaps[b] <= st.now))
  {
    RunsFlow(lim, n, start, steps, start, 0);
    var st := Run(lim, Initial(lim, n, start), steps);
    assert Spaced(st.passes[b], lim.gaps[b]);
  }
}
