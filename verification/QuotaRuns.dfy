/** What n callers on one limiter can never exceed, whatever they interleave. */
module QuotaRuns {
  import opened Quota
  import opened QuotaMachine
  import opened QuotaChecks
  import opened QuotaBuckets

  function Min(a: int, b: int): int {
    if a <= b then a else b
  }

  /** Grants beyond one per caller: as many as the day's limit leaves a single one, or as the buckets admit. */
  function Extra(lim: Limits, width: Time): int
    requires Positive(lim.gaps) && width > 0
  {
    Min(lim.rpd - 1, Admits(lim.gaps, width))
  }

  function DayBound(lim: Limits, n: nat): int
    requires Positive(lim.gaps)
  {
    n + Extra(lim, DAY)
  }

  /** One caller's budget, as far as its grants go, and one share for every other caller. */
  function TokenBound(lim: Limits, n: nat, most: nat): int
    requires Positive(lim.gaps)
  {
    var share := Share(most, lim.tpm);
    Min(lim.tpm, (Extra(lim, MINUTE) + 1) * share) + (n - 1) * share
  }

  // ---------------------------------------------------------------- whole runs

  ghost predicate Invariant(lim: Limits, st: State, most: nat) {
    DayInv(lim, st) && TokenInv(lim, st, most) && EntryInv(lim, st, most)
  }

  lemma {:induction false} IdleCounts(n: nat)
    ensures var cs := seq(n, i => Idle); Busy(cs) == 0 && Pending(cs) == 0
  {
    if n > 0 {
      IdleCounts(n - 1);
      assert seq(n, i => Idle)[..n - 1] == seq(n - 1, i => Idle);
    }
  }

  lemma {:induction false} RunsKeep(lim: Limits, n: nat, start: Time, most: nat, steps: seq<Step>)
    requires Sensible(lim, n) && (forall s | s in steps :: Estimates(s, most))
    ensures var st := Run(lim, Initial(lim, n, start), steps);
            |st.callers| == n && Invariant(lim, st, most)
  {
    if steps == [] {
      InitialKeeps(lim, n, start, most);
    } else {
      var s, before := steps[|steps| - 1], steps[..|steps| - 1];
      RunsKeep(lim, n, start, most, before);
      assert s in steps;
      var mid := Run(lim, Initial(lim, n, start), before);
      StepKeeps(lim, mid, s, most);
    }
  }

  lemma InitialKeeps(lim: Limits, n: nat, start: Time, most: nat)
    requires Sensible(lim, n)
    ensures Invariant(lim, Initial(lim, n, start), most)
  {
    IdleCounts(n);
    assert 0 <= (n - 1) * Share(most, lim.tpm);
  }

  /** Every step of every caller keeps the three invariants together. */
  lemma StepKeeps(lim: Limits, st: State, s: Step, most: nat)
    requires Sensible(lim, |st.callers|) && Estimates(s, most) && Invariant(lim, st, most)
    ensures |Apply(lim, st, s).callers| == |st.callers| && Invariant(lim, Apply(lim, st, s), most)
  {
    StepKeepsDay(lim, st, s);
    StepKeepsTokens(lim, st, s, most);
    StepKeepsEntries(lim, st, s, most);
  }

  /**
   * Over every run of n callers, every day-long window holds at most n + min(rpd - 1, A) grants, where A is what
   * the buckets admit in a day; and every minute-long one at most min(tpm, (k + 1) * share) + (n - 1) * share
   * tokens, where k is min(rpd - 1, what the buckets admit in a minute) and a share is the largest estimate or,
   * if smaller, the limit itself.
   */
  lemma QuotaHolds(lim: Limits, n: nat, start: Time, most: nat, steps: seq<Step>, from: Time)
    requires Sensible(lim, n) && (forall s | s in steps :: Estimates(s, most))
    ensures var st := Run(lim, Initial(lim, n, start), steps);
            && GrantsIn(st.grants, from, DAY) <= DayBound(lim, n)
            && TokensIn(st.spent, from, MINUTE) <= TokenBound(lim, n, most)
  {
    RunsKeep(lim, n, start, most, steps);
    BucketsHold(lim, n, start, steps, from, DAY);
    BucketsHold(lim, n, start, steps, from, MINUTE);
    InvariantBounds(lim, n, Run(lim, Initial(lim, n, start), steps), most, from);
  }

  lemma InvariantBounds(lim: Limits, n: nat, st: State, most: nat, from: Time)
    requires Sensible(lim, n) && |st.callers| == n && Invariant(lim, st, most)
    requires GrantsIn(st.grants, from, DAY) <= n + Admits(lim.gaps, DAY)
    requires EntriesIn(st.spent, from, MINUTE) <= n + Admits(lim.gaps, MINUTE)
    ensures GrantsIn(st.grants, from, DAY) <= DayBound(lim, n)
    ensures TokensIn(st.spent, from, MINUTE) <= TokenBound(lim, n, most)
  {
    var share := Share(most, lim.tpm);
    TokensPerEntry(st.spent, st.grants, from, MINUTE, share);
    Scale(EntriesIn(st.spent, from, MINUTE), Extra(lim, MINUTE), n, share);
  }

  lemma Scale(entries: nat, extra: nat, n: nat, share: nat)
    requires entries <= n + extra
    ensures entries * share <= (extra + 1) * share + (n - 1) * share
  {
    assert entries * share <= (n + extra) * share;
    assert (n + extra) * share == (extra + 1) * share + (n - 1) * share;
  }

  // ---------------------------------------------------------------- the limiter itself runs so

  ghost predicate Mirrors(q: QuotaLimiter, callers: seq<Caller>, now: Time, st: State)
    reads q
  {
    && q.Valid() && q.grants == st.grants && q.spent == st.spent && callers == st.callers && now == st.now
    && q.next == st.next && |st.passes| == |q.gaps|
    && q.rpdCut <= now - DAY && q.tpmCut <= now - MINUTE
  }

  function LimitsOf(q: QuotaLimiter): Limits {
    Limits(q.tpmMax, q.rpdMax, q.gaps)
  }

  /** One caller's next move, made by calling the limiter, whose windows are pruned as the code prunes them. */
  method Perform(q: QuotaLimiter, s: Step, callers0: seq<Caller>, now0: Time, ghost st: State)
    returns (callers: seq<Caller>, now: Time)
    requires Mirrors(q, callers0, now0, st)
    modifies q
    ensures Mirrors(q, callers, now, Apply(LimitsOf(q), st, s))
  {
    callers, now := callers0, now0;
    if !Enabled(LimitsOf(q), State(now, [], [], callers, q.next, seq(|q.gaps|, i => [])), s) {
      return;
    }
    match s
    case Tick(to) => now := to;
    case CheckDay(p, est) => callers := PerformCheckDay(q, p, est, callers, now, st);
    case CheckTokens(p) => callers := PerformCheckTokens(q, p, callers, now, st);
    case Pass(p, b) =>
      q.Admit(b, now);
      callers := callers[p := Admitted(callers[p].est)];
    case Grant(p, t1, t2) =>
      q.RecordTPM(callers[p].est, t1);
      q.RecordRPD(t2);
      callers, now := callers[p := Idle], t2;
    case GiveUp(p) => callers := callers[p := Idle];
  }

  method PerformCheckDay(q: QuotaLimiter, p: nat, est: nat, callers0: seq<Caller>, now: Time, ghost st: State)
    returns (callers: seq<Caller>)
    requires Mirrors(q, callers0, now, st) && Enabled(LimitsOf(q), st, CheckDay(p, est))
    modifies q
    ensures Mirrors(q, callers, now, Apply(LimitsOf(q), st, CheckDay(p, est)))
  {
    callers := callers0;
    var ok := q.CheckRPD(now);
    if ok {
      callers := callers[p := PassedDay(est)];
    } else {
      q.rpdThrottles := q.rpdThrottles + 1;
    }
  }

  method PerformCheckTokens(q: QuotaLimiter, p: nat, callers0: seq<Caller>, now: Time, ghost st: State)
    returns (callers: seq<Caller>)
    requires Mirrors(q, callers0, now, st) && Enabled(LimitsOf(q), st, CheckTokens(p))
    modifies q
    ensures Mirrors(q, callers, now, Apply(LimitsOf(q), st, CheckTokens(p)))
  {
    var est := callers0[p].est;
    var ok := q.CheckTPM(now, est);
    callers := callers0[p := if ok then Waiting(est) else Idle];
    if !ok {
      q.tpmThrottles := q.tpmThrottles + 1;
    }
  }

  /** Any interleaving of n callers on one limiter is a run of the machine: same grants, same tokens, same callers. */
  method Interleave(
      n: nat, start: Time, rpm: int, embedRPM: int, split: Split, tpm: int, rpd: int, steps: seq<Step>)
    returns (q: QuotaLimiter, callers: seq<Caller>, now: Time)
    ensures fresh(q) && Mirrors(q, callers, now, Run(LimitsOf(q), Initial(LimitsOf(q), n, start), steps))
    ensures LimitsOf(q).gaps == Gaps(rpm, embedRPM, split) && (n > 0 ==> Sensible(LimitsOf(q), n))
  {
    q := new QuotaLimiter(rpm, embedRPM, split, tpm, rpd, start);
    callers, now := seq(n, i => Idle), start;
    for i := 0 to |steps|
      invariant Mirrors(q, callers, now, Run(LimitsOf(q), Initial(LimitsOf(q), n, start), steps[..i]))
    {
      ghost var st := Run(LimitsOf(q), Initial(LimitsOf(q), n, start), steps[..i]);
      assert steps[..i + 1][..i] == steps[..i];
      callers, now := Perform(q, steps[i], callers, now, st);
    }
    assert steps[..|steps|] == steps;
  }
}
