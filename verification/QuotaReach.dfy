/**
 * The bounds of n callers are reached. Before the window every caller is admitted and held up; in it one of them
 * records and goes round as often as buckets and limits allow, and at its end the others record too.
 */
module QuotaReach {
  import opened Quota
  import opened QuotaMachine
  import opened QuotaChecks
  import opened QuotaBuckets
  import opened QuotaRuns

  ghost predicate Reachable(lim: Limits, n: nat, start: Time, most: nat, st: State) {
    exists steps: seq<Step> ::
      (forall s | s in steps :: Estimates(s, most)) && Run(lim, Initial(lim, n, start), steps) == st
  }

  lemma Onwards(lim: Limits, n: nat, start: Time, most: nat, st: State, s: Step)
    requires Reachable(lim, n, start, most, st) && Estimates(s, most)
    ensures Reachable(lim, n, start, most, Apply(lim, st, s))
  {
    var steps: seq<Step> :|
      (forall x | x in steps :: Estimates(x, most)) && Run(lim, Initial(lim, n, start), steps) == st;
    var more := steps + [s];
    assert more[..|steps|] == steps;
    assert Run(lim, Initial(lim, n, start), more) == Apply(lim, st, s);
  }

  // ---------------------------------------------------------------- single moves

  lemma {:induction false} AfterAtMost(ts: seq<Time>, cutoff: Time)
    ensures |After(ts, cutoff)| <= |ts|
  {
    if ts != [] {
      AfterAtMost(ts[..|ts| - 1], cutoff);
    }
  }

  lemma {:induction false} SumAtMost(es: seq<Entry>, cutoff: Time)
    requires NonNegative(es)
    ensures 0 <= Sum(EntriesAfter(es, cutoff)) <= Sum(es)
  {
    if es != [] {
      var before, e := es[..|es| - 1], es[|es| - 1];
      assert e in es && es == before + [e];
      SumAtMost(before, cutoff);
      EntriesSnoc(before, e, cutoff);
      EntriesSnoc(EntriesAfter(before, cutoff), e, cutoff);
    }
  }

  /** The state with one caller elsewhere. */
  function Moved(st: State, p: nat, c: Caller): State
    requires p < |st.callers|
  {
    st.(callers := st.callers[p := c])
  }

  lemma ChecksPass(lim: Limits, st: State, p: nat, e: nat)
    requires p < |st.callers| && st.callers[p].Idle? && |st.grants| < lim.rpd
    requires NonNegative(st.spent) && Sum(st.spent) + e <= lim.tpm
    ensures Apply(lim, st, CheckDay(p, e)) == Moved(st, p, PassedDay(e))
    ensures Apply(lim, Moved(st, p, PassedDay(e)), CheckTokens(p)) == Moved(st, p, Waiting(e))
  {
    AfterAtMost(st.grants, st.now - DAY);
    SumAtMost(st.spent, st.now - MINUTE);
    assert st.callers[p := PassedDay(e)][p := Waiting(e)] == st.callers[p := Waiting(e)];
  }

  predicate Sized(lim: Limits, st: State) {
    |st.next| == |st.passes| == |lim.gaps|
  }

  /** An idle caller passes both checks and the given bucket at once. */
  lemma Enter(lim: Limits, n: nat, start: Time, most: nat, st: State, p: nat, e: nat, b: nat) returns (st': State)
    requires Reachable(lim, n, start, most, st) && Sized(lim, st) && e <= most
    requires p < |st.callers| && st.callers[p].Idle? && |st.grants| < lim.rpd
    requires NonNegative(st.spent) && Sum(st.spent) + e <= lim.tpm
    requires b < |lim.gaps| && st.next[b] <= st.now
    ensures Reachable(lim, n, start, most, st') && Sized(lim, st')
    ensures st' == Moved(st, p, Admitted(e)).(next := st.next[b := st.now + lim.gaps[b]], passes := st'.passes)
  {
    ChecksPass(lim, st, p, e);
    Onwards(lim, n, start, most, st, CheckDay(p, e));
    Onwards(lim, n, start, most, Moved(st, p, PassedDay(e)), CheckTokens(p));
    Onwards(lim, n, start, most, Moved(st, p, Waiting(e)), Pass(p, b));
    st' := Apply(lim, Moved(st, p, Waiting(e)), Pass(p, b));
    assert st.callers[p := Waiting(e)][p := Admitted(e)] == st.callers[p := Admitted(e)];
  }

  /** The state once a caller has recorded at the present instant. */
  function Recorded(st: State, p: nat, e: nat): State
    requires p < |st.callers|
  {
    Moved(st, p, Idle).(spent := st.spent + [Entry(st.now, e)], grants := st.grants + [st.now])
  }

  lemma Leave(lim: Limits, n: nat, start: Time, most: nat, st: State, p: nat, e: nat)
    requires Reachable(lim, n, start, most, st) && p < |st.callers| && st.callers[p] == Admitted(e)
    ensures Reachable(lim, n, start, most, Recorded(st, p, e))
  {
    Onwards(lim, n, start, most, st, Grant(p, st.now, st.now));
  }

  lemma WaitUntil(lim: Limits, n: nat, start: Time, most: nat, st: State, to: Time)
    requires Reachable(lim, n, start, most, st) && st.now <= to
    ensures Reachable(lim, n, start, most, st.(now := to))
  {
    Onwards(lim, n, start, most, st, Tick(to));
  }

  // ---------------------------------------------------------------- before the window

  /** Callers lo to hi are admitted with e tokens each. */
  function Crew(n: nat, lo: nat, hi: nat, e: nat): seq<Caller> {
    seq(n, i => if lo <= i < hi then Admitted(e) else Idle)
  }

  predicate FreeBy(st: State, t: Time) {
    forall b :: 0 <= b < |st.next| ==> st.next[b] <= t
  }

  /** The first i callers admitted, one after the other, through the first bucket. */
  lemma {:induction false} Load(lim: Limits, n: nat, start: Time, most: nat, e: nat, i: nat) returns (st: State)
    requires Sensible(lim, n) && e <= most && e <= lim.tpm && i <= n
    ensures Reachable(lim, n, start, most, st) && Sized(lim, st) && st.callers == Crew(n, 0, i, e)
    ensures st.grants == [] && st.spent == []
    ensures st.now <= start + i * lim.gaps[0] && FreeBy(st, start + i * lim.gaps[0])
  {
    if i == 0 {
      st := Initial(lim, n, start);
      var none: seq<Step> := [];
      assert Run(lim, Initial(lim, n, start), none) == st;
    } else {
      var t := start + (i - 1) * lim.gaps[0];
      var before := Load(lim, n, start, most, e, i - 1);
      WaitUntil(lim, n, start, most, before, t);
      st := Enter(lim, n, start, most, before.(now := t), i - 1, e, 0);
      assert st.callers == Crew(n, 0, i, e);
      assert i * lim.gaps[0] == (i - 1) * lim.gaps[0] + lim.gaps[0];
    }
  }

  // ---------------------------------------------------------------- in the window

  /** Slots of a bucket at offsets 0, gap, 2 gap, ...: those before the offset d, or up to it. */
  function Slots(gap: Time, d: nat, upTo: bool): (k: nat)
    requires gap > 0
  {
    if upTo then d / gap + 1 else (d + gap - 1) / gap
  }

  lemma DivUnique(x: int, q: int, gap: nat, r: nat)
    requires gap > 0 && x == q * gap + r && r < gap
    ensures x / gap == q && x % gap == r
  {
    var q', r' := x / gap, x % gap;
    assert x == q' * gap + r';
    assert (q' - q) * gap == r - r';
    assert q' - q >= 1 ==> (q' - q) * gap >= gap;
    assert q' - q <= -1 ==> (q' - q) * gap + gap <= 0;
  }

  /** At an offset a bucket has a slot exactly if the gap divides it, and then it is the next one. */
  lemma SlotAt(gap: nat, d: nat)
    requires gap > 0
    ensures Slots(gap, d, true) == Slots(gap, d, false) + if d % gap == 0 then 1 else 0
    ensures d % gap == 0 ==> Slots(gap, d, false) * gap == d
    ensures Slots(gap, d + 1, false) == Slots(gap, d, true)
  {
    var q, r := d / gap, d % gap;
    assert d == q * gap + r;
    assert (q + 1) * gap == q * gap + gap;
    if r == 0 {
      DivUnique(d + gap - 1, q, gap, gap - 1);
    } else {
      DivUnique(d + gap - 1, q + 1, gap, r - 1);
    }
    DivUnique(d + gap, q + 1, gap, r);
  }

  /** Slots of all buckets before the offset d, and at it those of the first b buckets. */
  function Handled(gaps: seq<Time>, d: nat, b: nat): nat
    requires Positive(gaps)
  {
    if gaps == [] then 0
    else
      var i := |gaps| - 1;
      Handled(gaps[..i], d, b) + Slots(gaps[i], d, i < b)
  }

  lemma {:induction false} HandledNext(gaps: seq<Time>, d: nat, b: nat)
    requires Positive(gaps)
    ensures b < |gaps| ==> Handled(gaps, d, b + 1) == Handled(gaps, d, b) + if d % gaps[b] == 0 then 1 else 0
    ensures b >= |gaps| ==> Handled(gaps, d, b + 1) == Handled(gaps, d, b)
    ensures b >= |gaps| ==> Handled(gaps, d + 1, 0) == Handled(gaps, d, b)
  {
    if gaps != [] {
      var i := |gaps| - 1;
      HandledNext(gaps[..i], d, b);
      SlotAt(gaps[i], d);
    }
  }

  lemma {:induction false} HandledEnds(gaps: seq<Time>, width: Time, b: nat)
    requires Positive(gaps) && width > 0 && b >= |gaps|
    ensures Handled(gaps, width - 1, b) == Admits(gaps, width) && Handled(gaps, 0, 0) == 0
  {
    if gaps != [] {
      var i := |gaps| - 1;
      HandledEnds(gaps[..i], width, b);
      DivUnique(gaps[i] - 1, 0, gaps[i], gaps[i] - 1);
    }
  }

  /** What is recorded lies in the window so far. */
  predicate Inside(st: State, from: Time) {
    && (forall i :: 0 <= i < |st.grants| ==> from < st.grants[i] <= st.now)
    && (forall i :: 0 <= i < |st.spent| ==> from < st.spent[i].at <= st.now)
  }

  /** j records of the given tokens in all. */
  predicate Books(st: State, j: nat, tokens: nat) {
    |st.grants| == |st.spent| == j && NonNegative(st.spent) && Sum(st.spent) == tokens
  }

  /** The bucket's next free instant is at most its next slot not yet handled. */
  predicate OnTime(lim: Limits, st: State, from: Time, d: nat, b: nat)
    requires Sized(lim, st) && Positive(lim.gaps)
  {
    forall i :: 0 <= i < |lim.gaps| ==> st.next[i] <= from + 1 + Slots(lim.gaps[i], d, i < b) * lim.gaps[i]
  }

  /** The plan: a full share each, and `more` tokens over at most k further rounds of the first caller. */
  datatype Plan = Plan(from: Time, share: nat, more: nat, k: nat)

  predicate Feasible(lim: Limits, most: nat, plan: Plan) {
    && plan.share <= most && plan.share + plan.more <= lim.tpm
    && plan.k < lim.rpd && plan.more <= plan.k * plan.share
  }

  /** What the first c rounds spend. */
  function Used(plan: Plan, c: nat): nat {
    if c * plan.share <= plan.more then c * plan.share else plan.more
  }

  ghost predicate Cycling(lim: Limits, n: nat, st: State, plan: Plan, d: nat, b: nat)
    requires Positive(lim.gaps)
  {
    && Sized(lim, st) && st.callers == Crew(n, 1, n, plan.share) && st.now == plan.from + 1 + d
    && Inside(st, plan.from) && OnTime(lim, st, plan.from, d, b)
    && var c := Rounds(lim, plan, d, b); Books(st, 1 + c, plan.share + Used(plan, c))
  }

  /** Rounds made when the buckets before b were handled at the offset d. */
  function Rounds(lim: Limits, plan: Plan, d: nat, b: nat): nat
    requires Positive(lim.gaps)
  {
    if plan.k <= Handled(lim.gaps, d, b) then plan.k else Handled(lim.gaps, d, b)
  }

  lemma RecordBooks(st: State, p: nat, e: nat, from: Time, j: nat, tokens: nat)
    requires p < |st.callers| && Books(st, j, tokens) && Inside(st, from) && from < st.now
    ensures Books(Recorded(st, p, e), j + 1, tokens + e) && Inside(Recorded(st, p, e), from)
  {
    assert (st.spent + [Entry(st.now, e)])[..|st.spent|] == st.spent;
    forall x | x in st.spent + [Entry(st.now, e)] ensures x.tokens >= 0 {}
  }

  /** The window opens with the first caller's record. */
  lemma Opening(lim: Limits, n: nat, start: Time, most: nat, plan: Plan) returns (st: State)
    requires Sensible(lim, n) && Feasible(lim, most, plan) && plan.from == start + n * lim.gaps[0] - 1
    ensures Reachable(lim, n, start, most, st) && Cycling(lim, n, st, plan, 0, 0)
  {
    var e := plan.share;
    var loaded := Load(lim, n, start, most, e, n);
    var t := plan.from + 1;
    WaitUntil(lim, n, start, most, loaded, t);
    var open := loaded.(now := t);
    Leave(lim, n, start, most, open, 0, e);
    st := Recorded(open, 0, e);
    RecordBooks(open, 0, e, plan.from, 0, 0);
    assert st.callers == Crew(n, 1, n, e);
    HandledEnds(lim.gaps, 1, |lim.gaps|);
    forall i | 0 <= i < |lim.gaps|
      ensures st.next[i] <= plan.from + 1 + Slots(lim.gaps[i], 0, false) * lim.gaps[i]
    {
      DivUnique(lim.gaps[i] - 1, 0, lim.gaps[i], lim.gaps[i] - 1);
    }
  }

  /** One more round of the first caller, through bucket b. */
  lemma OneRound(
      lim: Limits, n: nat, start: Time, most: nat, st: State, from: Time, e: nat, b: nat, j: nat, tokens: nat)
    returns (st': State)
    requires Sensible(lim, n) && Reachable(lim, n, start, most, st) && Sized(lim, st) && e <= most
    requires |st.callers| == n && st.callers[0].Idle? && Books(st, j, tokens) && Inside(st, from) && from < st.now
    requires j < lim.rpd && tokens + e <= lim.tpm && b < |lim.gaps| && st.next[b] <= st.now
    ensures Reachable(lim, n, start, most, st') && Sized(lim, st') && st'.now == st.now && st'.callers == st.callers
    ensures Books(st', j + 1, tokens + e) && Inside(st', from) && st'.next == st.next[b := st.now + lim.gaps[b]]
  {
    var mid := Enter(lim, n, start, most, st, 0, e, b);
    Leave(lim, n, start, most, mid, 0, e);
    RecordBooks(mid, 0, e, from, j, tokens);
    st' := Recorded(mid, 0, e);
    assert st'.callers == st.callers;
  }

  lemma UsedNext(lim: Limits, most: nat, plan: Plan, c: nat)
    requires Feasible(lim, most, plan) && c < plan.k
    ensures 0 <= Used(plan, c + 1) - Used(plan, c) <= plan.share && Used(plan, c + 1) <= plan.more
  {
    assert (c + 1) * plan.share == c * plan.share + plan.share;
  }

  lemma StayOnTime(lim: Limits, st: State, from: Time, d: nat, b: nat)
    requires Sized(lim, st) && Positive(lim.gaps) && OnTime(lim, st, from, d, b) && b < |lim.gaps|
    ensures OnTime(lim, st, from, d, b + 1)
    ensures d % lim.gaps[b] == 0 ==> st.next[b] <= from + 1 + d
    ensures d % lim.gaps[b] == 0 ==> from + 1 + d + lim.gaps[b] == from + 1 + Slots(lim.gaps[b], d, true) * lim.gaps[b]
  {
    var gap := lim.gaps[b];
    SlotAt(gap, d);
    var k := Slots(gap, d, false);
    assert (k + 1) * gap == k * gap + gap;
    assert st.next[b] <= from + 1 + k * gap;
    forall i | 0 <= i < |lim.gaps|
      ensures st.next[i] <= from + 1 + Slots(lim.gaps[i], d, i < b + 1) * lim.gaps[i]
    {
      assert st.next[i] <= from + 1 + Slots(lim.gaps[i], d, i < b) * lim.gaps[i];
    }
  }

  /** The next bucket at the same instant: if it has a slot and rounds are left, one round. */
  lemma NextBucket(
      lim: Limits, n: nat, start: Time, most: nat, st: State, plan: Plan, d: nat, b: nat) returns (st': State)
    requires Sensible(lim, n) && Feasible(lim, most, plan) && Reachable(lim, n, start, most, st)
    requires Cycling(lim, n, st, plan, d, b) && b < |lim.gaps|
    ensures Reachable(lim, n, start, most, st') && Cycling(lim, n, st', plan, d, b + 1)
  {
    var c := Rounds(lim, plan, d, b);
    HandledNext(lim.gaps, d, b);
    StayOnTime(lim, st, plan.from, d, b);
    if d % lim.gaps[b] == 0 && c < plan.k {
      UsedNext(lim, most, plan, c);
      var e := Used(plan, c + 1) - Used(plan, c);
      st' := OneRound(lim, n, start, most, st, plan.from, e, b, 1 + c, plan.share + Used(plan, c));
      RoundOnTime(lim, st, st', plan.from, d, b);
    } else {
      st' := st;
    }
  }

  lemma RoundOnTime(lim: Limits, st: State, st': State, from: Time, d: nat, b: nat)
    requires Sized(lim, st) && Sized(lim, st') && Positive(lim.gaps)
    requires OnTime(lim, st, from, d, b + 1) && b < |lim.gaps|
    requires st'.next == st.next[b := from + 1 + d + lim.gaps[b]]
    requires from + 1 + d + lim.gaps[b] == from + 1 + Slots(lim.gaps[b], d, true) * lim.gaps[b]
    ensures OnTime(lim, st', from, d, b + 1)
  {
    forall i | 0 <= i < |lim.gaps|
      ensures st'.next[i] <= from + 1 + Slots(lim.gaps[i], d, i < b + 1) * lim.gaps[i]
    {
      assert i != b ==> st'.next[i] == st.next[i];
    }
  }

  /** All buckets handled at one instant: on to the next one. */
  lemma NextInstant(lim: Limits, n: nat, start: Time, most: nat, st: State, plan: Plan, d: nat)
    requires Sensible(lim, n) && Reachable(lim, n, start, most, st) && Cycling(lim, n, st, plan, d, |lim.gaps|)
    ensures Reachable(lim, n, start, most, st.(now := st.now + 1))
    ensures Cycling(lim, n, st.(now := st.now + 1), plan, d + 1, 0)
  {
    var st' := st.(now := st.now + 1);
    WaitUntil(lim, n, start, most, st, st.now + 1);
    HandledNext(lim.gaps, d, |lim.gaps|);
    forall i | 0 <= i < |lim.gaps|
      ensures st'.next[i] <= plan.from + 1 + Slots(lim.gaps[i], d + 1, false) * lim.gaps[i]
    {
      SlotAt(lim.gaps[i], d);
      assert st.next[i] <= plan.from + 1 + Slots(lim.gaps[i], d, true) * lim.gaps[i];
    }
  }

  lemma {:induction false} GoRound(
      lim: Limits, n: nat, start: Time, most: nat, plan: Plan, d: nat, b: nat) returns (st: State)
    requires Sensible(lim, n) && Feasible(lim, most, plan) && plan.from == start + n * lim.gaps[0] - 1
    requires b <= |lim.gaps|
    ensures Reachable(lim, n, start, most, st) && Cycling(lim, n, st, plan, d, b)
    decreases d, b
  {
    if b > 0 {
      var before := GoRound(lim, n, start, most, plan, d, b - 1);
      st := NextBucket(lim, n, start, most, before, plan, d, b - 1);
    } else if d > 0 {
      var before := GoRound(lim, n, start, most, plan, d - 1, |lim.gaps|);
      NextInstant(lim, n, start, most, before, plan, d - 1);
      st := before.(now := before.now + 1);
    } else {
      st := Opening(lim, n, start, most, plan);
    }
  }

  // ---------------------------------------------------------------- the end of the window

  /** Callers from i on are still to record. */
  ghost predicate Leaving(
      lim: Limits, n: nat, start: Time, most: nat, plan: Plan, st: State, j: nat, tokens: nat, i: nat)
  {
    && Reachable(lim, n, start, most, st) && st.callers == Crew(n, i, n, plan.share)
    && Books(st, j, tokens) && Inside(st, plan.from) && plan.from < st.now
  }

  lemma OneLeaves(lim: Limits, n: nat, start: Time, most: nat, plan: Plan, st: State, j: nat, tokens: nat, i: nat)
    returns (st': State)
    requires 1 <= i < n && Leaving(lim, n, start, most, plan, st, j, tokens, i)
    ensures Leaving(lim, n, start, most, plan, st', j + 1, tokens + plan.share, i + 1) && st'.now == st.now
  {
    Leave(lim, n, start, most, st, i, plan.share);
    RecordBooks(st, i, plan.share, plan.from, j, tokens);
    st' := Recorded(st, i, plan.share);
    CrewShrinks(n, i + 1, plan.share);
  }

  /** The callers held up since before the window record one after the other. */
  lemma {:induction false} LeaveRest(
      lim: Limits, n: nat, start: Time, most: nat, plan: Plan, st: State, j: nat, tokens: nat, i: nat)
    returns (st': State)
    requires 1 <= i <= n && Leaving(lim, n, start, most, plan, st, j, tokens, i)
    ensures Leaving(lim, n, start, most, plan, st', j + n - i, tokens + (n - i) * plan.share, n) && st'.now == st.now
    decreases n - i
  {
    if i == n {
      st' := st;
      assert (n - i) * plan.share == 0;
    } else {
      var next := OneLeaves(lim, n, start, most, plan, st, j, tokens, i);
      st' := LeaveRest(lim, n, start, most, plan, next, j + 1, tokens + plan.share, i + 1);
      assert (n - i) * plan.share == (n - i - 1) * plan.share + plan.share;
    }
  }

  lemma CrewShrinks(n: nat, i: nat, e: nat)
    requires 2 <= i <= n
    ensures Crew(n, i - 1, n, e)[i - 1 := Idle] == Crew(n, i, n, e)
  {
  }

  lemma {:induction false} AllGrantsIn(ts: seq<Time>, from: Time, width: Time)
    requires forall i :: 0 <= i < |ts| ==> from < ts[i] <= from + width
    ensures GrantsIn(ts, from, width) == |ts|
  {
    if ts != [] {
      AllGrantsIn(ts[..|ts| - 1], from, width);
    }
  }

  lemma {:induction false} AllTokensIn(es: seq<Entry>, from: Time, width: Time)
    requires forall i :: 0 <= i < |es| ==> from < es[i].at <= from + width
    ensures TokensIn(es, from, width) == Sum(es)
  {
    if es != [] {
      AllTokensIn(es[..|es| - 1], from, width);
    }
  }

  /** Every feasible plan whose rounds the buckets admit in the window is carried out in it. */
  lemma Carried(lim: Limits, n: nat, start: Time, most: nat, plan: Plan, width: Time) returns (st: State)
    requires Sensible(lim, n) && Feasible(lim, most, plan) && plan.from == start + n * lim.gaps[0] - 1
    requires width > 0 && plan.k <= Admits(lim.gaps, width)
    ensures Reachable(lim, n, start, most, st)
    ensures GrantsIn(st.grants, plan.from, width) == n + plan.k
    ensures TokensIn(st.spent, plan.from, width) == n * plan.share + plan.more
  {
    var full := GoRound(lim, n, start, most, plan, width - 1, |lim.gaps|);
    HandledEnds(lim.gaps, width, |lim.gaps|);
    var tokens := plan.share + plan.more;
    assert n * plan.share == (n - 1) * plan.share + plan.share;
    st := LeaveRest(lim, n, start, most, plan, full, 1 + plan.k, tokens, 1);
    AllGrantsIn(st.grants, plan.from, width);
    AllTokensIn(st.spent, plan.from, width);
  }

  // ---------------------------------------------------------------- the bounds are the maxima

  /** The window in which the bounds are reached. */
  function Opens(lim: Limits, n: nat, start: Time): Time
    requires |lim.gaps| > 0
  {
    start + n * lim.gaps[0] - 1
  }

  /** Whatever the limits, the buckets and the callers, some run fills a day to its bound. */
  lemma DayBoundReached(lim: Limits, n: nat, start: Time, most: nat) returns (st: State)
    requires Sensible(lim, n)
    ensures Reachable(lim, n, start, most, st)
    ensures GrantsIn(st.grants, Opens(lim, n, start), DAY) == DayBound(lim, n)
  {
    st := Carried(lim, n, start, most, Plan(Opens(lim, n, start), 0, 0, Extra(lim, DAY)), DAY);
  }

  /** And, whatever the largest estimate, some run spends a minute's bound. */
  lemma TokenBoundReached(lim: Limits, n: nat, start: Time, most: nat) returns (st: State)
    requires Sensible(lim, n)
    ensures Reachable(lim, n, start, most, st)
    ensures TokensIn(st.spent, Opens(lim, n, start), MINUTE) == TokenBound(lim, n, most)
  {
    var share: nat, k: nat := Share(most, lim.tpm), Extra(lim, MINUTE);
    assert (k + 1) * share == k * share + share && n * share == (n - 1) * share + share;
    assert 0 <= k * share;
    var more := Min(lim.tpm - share, k * share);
    st := Carried(lim, n, start, most, Plan(Opens(lim, n, start), share, more, k), MINUTE);
  }

  lemma ReachableWithin(lim: Limits, n: nat, start: Time, most: nat, st: State, from: Time)
    requires Sensible(lim, n) && Reachable(lim, n, start, most, st)
    ensures GrantsIn(st.grants, from, DAY) <= DayBound(lim, n)
    ensures TokensIn(st.spent, from, MINUTE) <= TokenBound(lim, n, most)
  {
    var steps: seq<Step> :|
      (forall s | s in steps :: Estimates(s, most)) && Run(lim, Initial(lim, n, start), steps) == st;
    QuotaHolds(lim, n, start, most, steps, from);
  }

  /** x bounds the grants of every day of every run. */
  ghost predicate BoundsDays(lim: Limits, n: nat, start: Time, most: nat, x: int) {
    forall st, from :: Reachable(lim, n, start, most, st) ==> GrantsIn(st.grants, from, DAY) <= x
  }

  /** x bounds the tokens of every minute of every run. */
  ghost predicate BoundsMinutes(lim: Limits, n: nat, start: Time, most: nat, x: int) {
    forall st, from :: Reachable(lim, n, start, most, st) ==> TokensIn(st.spent, from, MINUTE) <= x
  }

  /** The two bounds are exactly the maxima over all runs: a smaller number fails in some run. */
  lemma BoundsExact(lim: Limits, n: nat, start: Time, most: nat, x: int)
    requires Sensible(lim, n)
    ensures BoundsDays(lim, n, start, most, x) <==> DayBound(lim, n) <= x
    ensures BoundsMinutes(lim, n, start, most, x) <==> TokenBound(lim, n, most) <= x
  {
    forall st, from | Reachable(lim, n, start, most, st)
      ensures GrantsIn(st.grants, from, DAY) <= DayBound(lim, n)
      ensures TokensIn(st.spent, from, MINUTE) <= TokenBound(lim, n, most)
    {
      ReachableWithin(lim, n, start, most, st, from);
    }
    var day := DayBoundReached(lim, n, start, most);
    var minute := TokenBoundReached(lim, n, start, most);
    assert GrantsIn(day.grants, Opens(lim, n, start), DAY) == DayBound(lim, n);
    assert TokensIn(minute.spent, Opens(lim, n, start), MINUTE) == TokenBound(lim, n, most);
  }

  /**
   * The configured daily limit holds over every run exactly for a single caller, or where the buckets admit so
   * few requests a day that one more per caller still fits.
   */
  lemma DayLimitHoldsExactly(lim: Limits, n: nat, start: Time, most: nat)
    requires Sensible(lim, n)
    ensures BoundsDays(lim, n, start, most, lim.rpd) <==> n == 1 || n + Admits(lim.gaps, DAY) <= lim.rpd
  {
    BoundsExact(lim, n, start, most, lim.rpd);
  }

  /**
   * The configured token limit holds over every run with estimates up to `most` exactly for a single caller, or
   * where every caller's share, and one for every further request, fits into it together.
   */
  lemma TokenLimitHoldsExactly(lim: Limits, n: nat, start: Time, most: nat)
    requires Sensible(lim, n)
    ensures BoundsMinutes(lim, n, start, most, lim.tpm) <==>
            n == 1 || most == 0 || (n + Extra(lim, MINUTE)) * Share(most, lim.tpm) <= lim.tpm
  {
    BoundsExact(lim, n, start, most, lim.tpm);
    SharesFit(lim.tpm, n, Extra(lim, MINUTE), Share(most, lim.tpm));
  }

  lemma SharesFit(tpm: nat, n: nat, k: nat, share: nat)
    requires n >= 1
    ensures Min(tpm, (k + 1) * share) + (n - 1) * share <= tpm <==> n == 1 || share == 0 || (n + k) * share <= tpm
  {
    var one, others := (k + 1) * share, (n - 1) * share;
    assert (n + k) * share == one + others;
    assert n > 1 && share > 0 ==> others >= share;
    assert n == 1 || share == 0 ==> others == 0;
  }

  /** With estimates of any size the token limit holds exactly for a single caller, whatever the buckets. */
  lemma TokenLimitNeedsOneCaller(lim: Limits, n: nat, start: Time)
    requires Sensible(lim, n)
    ensures (forall most: nat :: BoundsMinutes(lim, n, start, most, lim.tpm)) <==> n == 1
  {
    if n == 1 {
      forall most: nat
        ensures BoundsMinutes(lim, n, start, most, lim.tpm)
      {
        TokenLimitHoldsExactly(lim, n, start, most);
      }
    } else {
      SeveralExceed(lim, n, start);
    }
  }

  lemma SeveralExceed(lim: Limits, n: nat, start: Time)
    requires Sensible(lim, n) && n > 1
    ensures var whole: nat := lim.tpm; !BoundsMinutes(lim, n, start, whole, lim.tpm)
  {
    TokenLimitHoldsExactly(lim, n, start, lim.tpm);
    MoreThanOne(n + Extra(lim, MINUTE), lim.tpm);
  }

  lemma MoreThanOne(x: nat, w: nat)
    requires x > 1 && w > 0
    ensures x * w > w
  {
    assert x * w >= 2 * w;
  }

  /** The default buckets admit 17280 requests a day and twelve a minute. */
  lemma DefaultBuckets()
    ensures Gaps(10, 0, DEFAULT_SPLIT) == [30 * SECOND, 15 * SECOND, 30 * SECOND, 60 * SECOND, 20 * SECOND]
    ensures Positive(Gaps(10, 0, DEFAULT_SPLIT))
    ensures Admits(Gaps(10, 0, DEFAULT_SPLIT), DAY) == 17280 && Admits(Gaps(10, 0, DEFAULT_SPLIT), MINUTE) == 12
  {
    DefaultGaps();
    AdmitsFive(30 * SECOND, 15 * SECOND, 30 * SECOND, 60 * SECOND, 20 * SECOND, DAY);
    AdmitsFive(30 * SECOND, 15 * SECOND, 30 * SECOND, 60 * SECOND, 20 * SECOND, MINUTE);
    DefaultFits();
  }

  lemma DefaultGaps()
    ensures Gaps(10, 0, DEFAULT_SPLIT) == [30 * SECOND, 15 * SECOND, 30 * SECOND, 60 * SECOND, 20 * SECOND]
  {
    assert Effective(DEFAULT_SPLIT) == DEFAULT_SPLIT;
  }

  lemma DefaultFits()
    ensures Fit(30 * SECOND, DAY) == 2880 && Fit(15 * SECOND, DAY) == 5760 && Fit(60 * SECOND, DAY) == 1440
    ensures Fit(20 * SECOND, DAY) == 4320
    ensures Fit(30 * SECOND, MINUTE) == 2 && Fit(15 * SECOND, MINUTE) == 4 && Fit(60 * SECOND, MINUTE) == 1
    ensures Fit(20 * SECOND, MINUTE) == 3
  {
  }

  lemma AdmitsFive(a: Time, b: Time, c: Time, d: Time, e: Time, width: Time)
    requires Positive([a, b, c, d, e]) && a > 0 && b > 0 && c > 0 && d > 0 && e > 0 && width > 0
    ensures Admits([a, b, c, d, e], width) ==
            Fit(a, width) + Fit(b, width) + Fit(c, width) + Fit(d, width) + Fit(e, width)
  {
    AdmitsThree(a, b, c, width);
    AdmitsSnoc([a, b, c], d, width);
    assert [a, b, c] + [d] == [a, b, c, d];
    AdmitsSnoc([a, b, c, d], e, width);
    assert [a, b, c, d] + [e] == [a, b, c, d, e];
  }

  lemma AdmitsThree(a: Time, b: Time, c: Time, width: Time)
    requires a > 0 && b > 0 && c > 0 && width > 0
    ensures Positive([a, b, c]) && Admits([a, b, c], width) == Fit(a, width) + Fit(b, width) + Fit(c, width)
  {
    AdmitsSnoc([], a, width);
    assert [] + [a] == [a];
    AdmitsSnoc([a], b, width);
    assert [a] + [b] == [a, b];
    AdmitsSnoc([a, b], c, width);
    assert [a, b] + [c] == [a, b, c];
  }

  lemma AdmitsSnoc(gaps: seq<Time>, gap: Time, width: Time)
    requires Positive(gaps) && gap > 0 && width > 0
    ensures Positive(gaps + [gap]) && Admits(gaps + [gap], width) == Admits(gaps, width) + Fit(gap, width)
  {
    assert (gaps + [gap])[..|gaps|] == gaps;
  }
}
