/** What the checks alone bound: the day's grants, the minute's tokens, and how they go together. */
module QuotaChecks {
  import opened Quota
  import opened QuotaMachine

  // ---------------------------------------------------------------- counting callers

  /** Callers past the day check, and the tokens of those past the token check. */
  function Busy(cs: seq<Caller>): nat {
    if cs == [] then 0 else Busy(cs[..|cs| - 1]) + if cs[|cs| - 1].Idle? then 0 else 1
  }

  predicate Checked(c: Caller) {
    c.Waiting? || c.Admitted?
  }

  function Pledged(c: Caller): nat {
    if Checked(c) then c.est else 0
  }

  function Pending(cs: seq<Caller>): nat {
    if cs == [] then 0 else Pending(cs[..|cs| - 1]) + Pledged(cs[|cs| - 1])
  }

  /** Estimates stay below `most`, and those that passed the token check below the limit as well. */
  predicate Within(cs: seq<Caller>, most: nat, tpm: int) {
    forall c | c in cs :: (!c.Idle? ==> c.est <= most) && (Checked(c) ==> c.est <= tpm)
  }

  /** The most one grant can carry. */
  function Share(most: nat, tpm: int): int {
    if most <= tpm then most else tpm
  }

  lemma {:induction false} BusyBound(cs: seq<Caller>)
    ensures Busy(cs) <= |cs|
  {
    if cs != [] {
      BusyBound(cs[..|cs| - 1]);
    }
  }

  lemma {:induction false} BusyUpdate(cs: seq<Caller>, p: nat, c: Caller)
    requires p < |cs|
    ensures Busy(cs[p := c]) == Busy(cs) - (if cs[p].Idle? then 0 else 1) + (if c.Idle? then 0 else 1)
  {
    var n := |cs| - 1;
    if p == n {
      assert cs[p := c][..n] == cs[..n];
    } else {
      BusyUpdate(cs[..n], p, c);
      assert cs[p := c][..n] == cs[..n][p := c];
    }
  }

  lemma {:induction false} PendingUpdate(cs: seq<Caller>, p: nat, c: Caller)
    requires p < |cs|
    ensures Pending(cs[p := c]) == Pending(cs) - Pledged(cs[p]) + Pledged(c)
  {
    var n := |cs| - 1;
    if p == n {
      assert cs[p := c][..n] == cs[..n];
    } else {
      PendingUpdate(cs[..n], p, c);
      assert cs[p := c][..n] == cs[..n][p := c];
    }
  }

  /** The others together never pledge more than their number times the largest estimate. */
  lemma {:induction false} PendingBound(cs: seq<Caller>, share: nat)
    requires forall i :: 0 <= i < |cs| ==> Pledged(cs[i]) <= share
    ensures Pending(cs) <= |cs| * share
  {
    if cs != [] {
      PendingBound(cs[..|cs| - 1], share);
      assert |cs| * share == (|cs| - 1) * share + share;
    }
  }

  lemma OthersBound(cs: seq<Caller>, p: nat, most: nat, tpm: nat)
    requires p < |cs| && Within(cs, most, tpm)
    ensures Pending(cs) - Pledged(cs[p]) <= (|cs| - 1) * Share(most, tpm)
  {
    var others := cs[..p] + cs[p + 1..];
    PendingWithout(cs, p);
    forall i | 0 <= i < |others| ensures Pledged(others[i]) <= Share(most, tpm) {
      assert others[i] in cs;
    }
    PendingBound(others, Share(most, tpm));
  }

  lemma {:induction false} PendingWithout(cs: seq<Caller>, p: nat)
    requires p < |cs|
    ensures Pending(cs[..p] + cs[p + 1..]) == Pending(cs) - Pledged(cs[p])
  {
    var n := |cs| - 1;
    var others := cs[..p] + cs[p + 1..];
    if p == n {
      assert others == cs[..n];
    } else {
      PendingWithout(cs[..n], p);
      assert others[..|others| - 1] == cs[..n][..p] + cs[..n][p + 1..];
    }
  }

  // ---------------------------------------------------------------- windows

  predicate NonNegative(es: seq<Entry>) {
    forall e | e in es :: e.tokens >= 0
  }

  lemma {:induction false} WindowBelowAfter(ts: seq<Time>, from: Time, width: Time, cutoff: Time)
    requires cutoff <= from
    ensures GrantsIn(ts, from, width) <= |After(ts, cutoff)|
  {
    if ts != [] {
      WindowBelowAfter(ts[..|ts| - 1], from, width, cutoff);
    }
  }

  lemma {:induction false} TokensBelowAfter(es: seq<Entry>, from: Time, width: Time, cutoff: Time)
    requires cutoff <= from && NonNegative(es)
    ensures 0 <= TokensIn(es, from, width) <= Sum(EntriesAfter(es, cutoff))
  {
    if es != [] {
      var before, e := es[..|es| - 1], es[|es| - 1];
      assert e in es;
      TokensBelowAfter(before, from, width, cutoff);
      var kept := EntriesAfter(before, cutoff);
      assert (kept + [e])[..|kept|] == kept;
    }
  }

  lemma {:induction false} AfterShrinks(ts: seq<Time>, c: Time, c': Time)
    requires c <= c'
    ensures |After(ts, c')| <= |After(ts, c)|
  {
    if ts != [] {
      AfterShrinks(ts[..|ts| - 1], c, c');
    }
  }

  lemma {:induction false} SumShrinks(es: seq<Entry>, c: Time, c': Time)
    requires c <= c' && NonNegative(es)
    ensures 0 <= Sum(EntriesAfter(es, c')) <= Sum(EntriesAfter(es, c))
  {
    if es != [] {
      var before, e := es[..|es| - 1], es[|es| - 1];
      assert e in es;
      SumShrinks(before, c, c');
      var k, k' := EntriesAfter(before, c), EntriesAfter(before, c');
      assert (k + [e])[..|k|] == k && (k' + [e])[..|k'|] == k';
    }
  }

  // ---------------------------------------------------------------- the invariant

  function DayCheckBound(lim: Limits, n: nat): int {
    lim.rpd + n - 1
  }

  function TokenCheckBound(lim: Limits, n: nat, most: nat): int {
    lim.tpm + (n - 1) * Share(most, lim.tpm)
  }

  /** Grants of the last day and callers still to record them; every past window within the bound. */
  ghost predicate DayInv(lim: Limits, st: State) {
    && |After(st.grants, st.now - DAY)| + Busy(st.callers) <= DayCheckBound(lim, |st.callers|)
    && forall from :: GrantsIn(st.grants, from, DAY) <= DayCheckBound(lim, |st.callers|)
  }

  ghost predicate TokenInv(lim: Limits, st: State, most: nat) {
    && NonNegative(st.spent) && Within(st.callers, most, lim.tpm)
    && TokensUpTo(st, TokenCheckBound(lim, |st.callers|, most))
  }

  ghost predicate TokensUpTo(st: State, bound: int) {
    && Sum(EntriesAfter(st.spent, st.now - MINUTE)) + Pending(st.callers) <= bound
    && forall from :: TokensIn(st.spent, from, MINUTE) <= bound
  }

  lemma GrantKeepsDay(lim: Limits, st: State, p: nat, t1: Time, t2: Time)
    requires DayInv(lim, st) && Enabled(lim, st, Grant(p, t1, t2))
    ensures DayInv(lim, Apply(lim, st, Grant(p, t1, t2)))
  {
    var st' := Apply(lim, st, Grant(p, t1, t2));
    assert st'.grants[..|st.grants|] == st.grants;
    BusyUpdate(st.callers, p, Idle);
    AfterShrinks(st.grants, st.now - DAY, t2 - DAY);
    forall from
      ensures GrantsIn(st'.grants, from, DAY) <= DayCheckBound(lim, |st'.callers|)
    {
      if from < t2 <= from + DAY {
        WindowBelowAfter(st'.grants, from, DAY, t2 - DAY);
      }
    }
  }

  lemma StepKeepsDay(lim: Limits, st: State, s: Step)
    requires Sensible(lim, |st.callers|) && DayInv(lim, st)
    ensures DayInv(lim, Apply(lim, st, s))
  {
    if !Enabled(lim, st, s) {
      return;
    }
    match s
    case Tick(to) => AfterShrinks(st.grants, st.now - DAY, to - DAY);
    case CheckDay(p, est) =>
      BusyBound(st.callers[p := PassedDay(est)]);
    case CheckTokens(p) =>
      BusyFalls(st.callers, p, Waiting(st.callers[p].est));
      BusyFalls(st.callers, p, Idle);
    case Pass(p, b) => BusyFalls(st.callers, p, Admitted(st.callers[p].est));
    case Grant(p, t1, t2) => GrantKeepsDay(lim, st, p, t1, t2);
    case GiveUp(p) => BusyFalls(st.callers, p, Idle);
  }

  /** Whoever moves on was busy before. */
  lemma BusyFalls(cs: seq<Caller>, p: nat, c: Caller)
    requires p < |cs| && !cs[p].Idle?
    ensures Busy(cs[p := c]) <= Busy(cs)
  {
    BusyUpdate(cs, p, c);
  }

  lemma WithinUpdate(cs: seq<Caller>, p: nat, c: Caller, most: nat, tpm: int)
    requires Within(cs, most, tpm) && p < |cs| && (!c.Idle? ==> c.est <= most) && (Checked(c) ==> c.est <= tpm)
    ensures Within(cs[p := c], most, tpm)
  {
    forall x | x in cs[p := c] ensures x in cs || x == c {}
  }

  lemma GrantKeepsTokens(lim: Limits, st: State, p: nat, t1: Time, t2: Time, bound: int)
    requires NonNegative(st.spent) && TokensUpTo(st, bound) && Enabled(lim, st, Grant(p, t1, t2))
    ensures var st' := Apply(lim, st, Grant(p, t1, t2));
            NonNegative(st'.spent) && TokensUpTo(st', bound)
  {
    PendingUpdate(st.callers, p, Idle);
    SpendWithin(st.spent, Entry(t1, st.callers[p].est), st.now, t2, Pending(st.callers[p := Idle]), bound);
  }

  lemma SpendWithin(es: seq<Entry>, e: Entry, now: Time, later: Time, others: nat, bound: int)
    requires NonNegative(es) && e.tokens >= 0 && now <= e.at <= later
    requires Sum(EntriesAfter(es, now - MINUTE)) + e.tokens + others <= bound
    requires forall from :: TokensIn(es, from, MINUTE) <= bound
    ensures NonNegative(es + [e]) && Sum(EntriesAfter(es + [e], later - MINUTE)) + others <= bound
    ensures forall from :: TokensIn(es + [e], from, MINUTE) <= bound
  {
    SpendMore(es, e, now, e.at);
    SumShrinks(es + [e], e.at - MINUTE, later - MINUTE);
    WindowsWithOneMore(es, e, bound);
  }

  /** A new entry adds only to windows that reach back no further than the minute before it. */
  lemma WindowsWithOneMore(es: seq<Entry>, e: Entry, bound: int)
    requires NonNegative(es) && e.tokens >= 0 && Sum(EntriesAfter(es + [e], e.at - MINUTE)) <= bound
    requires forall from :: TokensIn(es, from, MINUTE) <= bound
    ensures forall from :: TokensIn(es + [e], from, MINUTE) <= bound
  {
    var all := es + [e];
    assert all[..|es|] == es;
    forall from
      ensures TokensIn(all, from, MINUTE) <= bound
    {
      if from < e.at <= from + MINUTE {
        TokensBelowAfter(all, from, MINUTE, e.at - MINUTE);
      } else {
        assert TokensIn(all, from, MINUTE) == TokensIn(es, from, MINUTE);
      }
    }
  }

  /** Recording one more entry adds at most its tokens to the last minute. */
  lemma SpendMore(es: seq<Entry>, e: Entry, now: Time, t: Time)
    requires NonNegative(es) && e.tokens >= 0 && e.at == t && now <= t
    ensures NonNegative(es + [e])
    ensures Sum(EntriesAfter(es + [e], t - MINUTE)) <= Sum(EntriesAfter(es, now - MINUTE)) + e.tokens
  {
    SumShrinks(es, now - MINUTE, t - MINUTE);
    var kept := EntriesAfter(es, t - MINUTE);
    assert (kept + [e])[..|kept|] == kept && (es + [e])[..|es|] == es;
  }

  lemma CheckKeepsTokens(lim: Limits, st: State, p: nat, most: nat)
    requires Sensible(lim, |st.callers|) && TokenInv(lim, st, most) && Enabled(lim, st, CheckTokens(p))
    ensures TokenInv(lim, Apply(lim, st, CheckTokens(p)), most)
  {
    var est := st.callers[p].est;
    assert st.callers[p] in st.callers;
    if Sum(EntriesAfter(st.spent, st.now - MINUTE)) + est <= lim.tpm {
      PledgeKeepsTokens(lim, st, p, est, most);
    } else {
      MoveKeepsTokens(lim, st, p, Idle, most);
    }
  }

  lemma PledgeKeepsTokens(lim: Limits, st: State, p: nat, est: nat, most: nat)
    requires Sensible(lim, |st.callers|) && TokenInv(lim, st, most) && p < |st.callers| && est <= most
    requires Sum(EntriesAfter(st.spent, st.now - MINUTE)) + est <= lim.tpm
    ensures TokenInv(lim, st.(callers := st.callers[p := Waiting(est)]), most)
  {
    PendingUpdate(st.callers, p, Waiting(est));
    SumShrinks(st.spent, st.now - MINUTE, st.now - MINUTE);
    WithinUpdate(st.callers, p, Waiting(est), most, lim.tpm);
    OthersBound(st.callers, p, most, lim.tpm);
  }

  /** A caller that moves on with the same pledge, or drops it, and nothing recorded. */
  lemma MoveKeepsTokens(lim: Limits, st: State, p: nat, c: Caller, most: nat)
    requires TokenInv(lim, st, most) && p < |st.callers| && Pledged(c) <= Pledged(st.callers[p])
    requires (!c.Idle? ==> c.est <= most) && (Checked(c) ==> c.est <= lim.tpm)
    ensures TokenInv(lim, st.(callers := st.callers[p := c]), most)
  {
    PendingUpdate(st.callers, p, c);
    WithinUpdate(st.callers, p, c, most, lim.tpm);
  }

  lemma GrantKeepsAll(lim: Limits, st: State, p: nat, t1: Time, t2: Time, most: nat)
    requires TokenInv(lim, st, most) && Enabled(lim, st, Grant(p, t1, t2))
    ensures TokenInv(lim, Apply(lim, st, Grant(p, t1, t2)), most)
  {
    GrantKeepsTokens(lim, st, p, t1, t2, TokenCheckBound(lim, |st.callers|, most));
    WithinUpdate(st.callers, p, Idle, most, lim.tpm);
  }

  lemma PassKeepsTokens(lim: Limits, st: State, p: nat, b: nat, most: nat)
    requires TokenInv(lim, st, most) && Enabled(lim, st, Pass(p, b))
    ensures TokenInv(lim, Apply(lim, st, Pass(p, b)), most)
  {
    assert st.callers[p] in st.callers;
    MoveKeepsTokens(lim, st, p, Admitted(st.callers[p].est), most);
  }

  lemma StepKeepsTokens(lim: Limits, st: State, s: Step, most: nat)
    requires Sensible(lim, |st.callers|) && TokenInv(lim, st, most) && Estimates(s, most)
    ensures TokenInv(lim, Apply(lim, st, s), most)
  {
    if !Enabled(lim, st, s) {
      return;
    }
    match s
    case Tick(to) => SumShrinks(st.spent, st.now - MINUTE, to - MINUTE);
    case CheckDay(p, est) => MoveKeepsTokens(lim, st, p, PassedDay(est), most);
    case CheckTokens(p) => CheckKeepsTokens(lim, st, p, most);
    case Pass(p, b) => PassKeepsTokens(lim, st, p, b, most);
    case Grant(p, t1, t2) => GrantKeepsAll(lim, st, p, t1, t2, most);
    case GiveUp(p) => MoveKeepsTokens(lim, st, p, Idle, most);
  }

  // ---------------------------------------------------------------- grants carry tokens

  /** Each grant was spent no later than it was counted, and carries at most a share. */
  predicate Paired(es: seq<Entry>, ts: seq<Time>, share: int) {
    |es| == |ts| && forall i | 0 <= i < |es| :: es[i].at <= ts[i] && 0 <= es[i].tokens <= share
  }

  lemma {:induction false} TokensPerEntry(es: seq<Entry>, ts: seq<Time>, from: Time, width: Time, share: nat)
    requires Paired(es, ts, share)
    ensures TokensIn(es, from, width) <= EntriesIn(es, from, width) * share
  {
    if es != [] {
      var n := |es| - 1;
      TokensPerEntry(es[..n], ts[..n], from, width, share);
      var k := EntriesIn(es[..n], from, width);
      assert (k + 1) * share == k * share + share;
      assert es[n].tokens <= share;
    }
  }

  lemma {:induction false} EntriesBelowGrants(
      es: seq<Entry>, ts: seq<Time>, from: Time, width: Time, cutoff: Time, share: int)
    requires Paired(es, ts, share) && cutoff <= from
    ensures EntriesIn(es, from, width) <= |After(ts, cutoff)|
  {
    if es != [] {
      var n := |es| - 1;
      EntriesBelowGrants(es[..n], ts[..n], from, width, cutoff, share);
      assert es[n].at <= ts[n];
    }
  }

  /** No minute holds more entries than the day bound allows grants. */
  ghost predicate EntryInv(lim: Limits, st: State, most: nat) {
    && Paired(st.spent, st.grants, Share(most, lim.tpm))
    && forall from :: EntriesIn(st.spent, from, MINUTE) <= DayCheckBound(lim, |st.callers|)
  }

  lemma StepKeepsEntries(lim: Limits, st: State, s: Step, most: nat)
    requires Sensible(lim, |st.callers|) && DayInv(lim, st)
    requires Within(st.callers, most, lim.tpm) && EntryInv(lim, st, most)
    ensures EntryInv(lim, Apply(lim, st, s), most)
  {
    if Enabled(lim, st, s) && s.Grant? {
      assert st.callers[s.p] in st.callers;
      BusyUpdate(st.callers, s.p, Idle);
      var e := Entry(s.t1, st.callers[s.p].est);
      OneMoreEntry(st.spent, st.grants, e, s.t2, st.now, Share(most, lim.tpm), DayCheckBound(lim, |st.callers|));
    }
  }

  lemma OneMoreEntry(es: seq<Entry>, ts: seq<Time>, e: Entry, t: Time, now: Time, share: int, bound: int)
    requires Paired(es, ts, share) && now <= e.at <= t && 0 <= e.tokens <= share
    requires |After(ts, now - DAY)| + 1 <= bound && forall from :: EntriesIn(es, from, MINUTE) <= bound
    ensures Paired(es + [e], ts + [t], share) && forall from :: EntriesIn(es + [e], from, MINUTE) <= bound
  {
    assert (es + [e])[..|es|] == es;
    forall from
      ensures EntriesIn(es + [e], from, MINUTE) <= bound
    {
      if from < e.at <= from + MINUTE {
        EntriesBelowGrants(es, ts, from, MINUTE, now - DAY, share);
      } else {
        assert EntriesIn(es + [e], from, MINUTE) == EntriesIn(es, from, MINUTE);
      }
    }
  }
}
