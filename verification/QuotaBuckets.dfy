/** What the request buckets alone bound: how many admissions, and so how many records, fit into a window. */
module QuotaBuckets {
  import opened Quota
  import opened QuotaMachine

  // ---------------------------------------------------------------- spaced admissions

  /** Any two successive instants lie at least a gap apart. */
  predicate Spaced(ts: seq<Time>, gap: Time) {
    forall i :: 0 < i < |ts| ==> ts[i - 1] + gap <= ts[i]
  }

  /** The most instants a gap apart that fit into a window of the given width. */
  function Fit(gap: Time, width: Time): nat
    requires gap > 0 && width > 0
  {
    (width - 1) / gap + 1
  }

  lemma DivAtLeast(x: nat, y: nat, gap: nat)
    requires gap > 0 && x * gap <= y
    ensures x <= y / gap
  {
    var q, r := y / gap, y % gap;
    assert y == q * gap + r;
    assert (q + 1) * gap == q * gap + gap;
    assert x >= q + 1 ==> x * gap >= (q + 1) * gap;
  }

  lemma {:induction false} SpacedSpan(ts: seq<Time>, gap: nat, from: Time, width: Time)
    requires Spaced(ts, gap) && ts != [] && width > 0
    ensures var k, last := GrantsIn(ts, from, width), ts[|ts| - 1];
            var end := if last <= from + width then last else from + width;
            k > 0 ==> (k - 1) * gap <= end - from - 1
  {
    var n := |ts| - 1;
    if n > 0 {
      SpacedSpan(ts[..n], gap, from, width);
      var k := GrantsIn(ts[..n], from, width);
      assert ts[n - 1] + gap <= ts[n];
      assert k > 0 ==> k * gap == (k - 1) * gap + gap;
    }
  }

  /** No window holds more spaced instants than fit. */
  lemma SpacedFit(ts: seq<Time>, gap: nat, from: Time, width: Time)
    requires Spaced(ts, gap) && gap > 0 && width > 0
    ensures GrantsIn(ts, from, width) <= Fit(gap, width)
  {
    var k := GrantsIn(ts, from, width);
    if ts != [] && k > 0 {
      SpacedSpan(ts, gap, from, width);
      DivAtLeast(k - 1, width - 1, gap);
    }
  }

  // ---------------------------------------------------------------- all buckets together

  function PassesIn(passes: seq<seq<Time>>, from: Time, width: Time): nat {
    if passes == [] then 0
    else PassesIn(passes[..|passes| - 1], from, width) + GrantsIn(passes[|passes| - 1], from, width)
  }

  /** The most admissions all buckets together can make in a window of the given width. */
  function Admits(gaps: seq<Time>, width: Time): nat
    requires Positive(gaps) && width > 0
  {
    if gaps == [] then 0
    else
      Admits(gaps[..|gaps| - 1], width) + Fit(gaps[|gaps| - 1], width)
  }

  predicate AllSpaced(passes: seq<seq<Time>>, gaps: seq<Time>) {
    |passes| == |gaps| && forall b | 0 <= b < |gaps| :: Spaced(passes[b], gaps[b])
  }

  lemma {:induction false} PassesFit(passes: seq<seq<Time>>, gaps: seq<Time>, from: Time, width: Time)
    requires AllSpaced(passes, gaps) && Positive(gaps) && width > 0
    ensures PassesIn(passes, from, width) <= Admits(gaps, width)
  {
    if gaps != [] {
      var n := |gaps| - 1;
      assert Spaced(passes[n], gaps[n]);
      PassesFit(passes[..n], gaps[..n], from, width);
      SpacedFit(passes[n], gaps[n], from, width);
    }
  }

  lemma {:induction false} OneMorePass(passes: seq<seq<Time>>, b: nat, t: Time, from: Time, width: Time)
    requires b < |passes|
    ensures PassesIn(passes[b := passes[b] + [t]], from, width) ==
            PassesIn(passes, from, width) + if from < t <= from + width then 1 else 0
  {
    var n := |passes| - 1;
    var more := passes[b := passes[b] + [t]];
    if b == n {
      assert more[..n] == passes[..n];
      assert (passes[b] + [t])[..|passes[b]|] == passes[b];
    } else {
      OneMorePass(passes[..n], b, t, from, width);
      assert more[..n] == passes[..n][b := passes[b] + [t]];
    }
  }

  /** Each bucket's admissions are spaced, past, and the last one decides when it admits again. */
  ghost predicate PassInv(lim: Limits, st: State) {
    && |st.next| == |st.passes| == |lim.gaps|
    && AllSpaced(st.passes, lim.gaps)
    && (forall b | 0 <= b < |lim.gaps| && st.passes[b] == [] :: st.next[b] <= st.now)
    && forall b | 0 <= b < |lim.gaps| && st.passes[b] != [] ::
         st.next[b] == st.passes[b][|st.passes[b]| - 1] + lim.gaps[b]
  }

  lemma StepKeepsPasses(lim: Limits, st: State, s: Step)
    requires PassInv(lim, st)
    ensures PassInv(lim, Apply(lim, st, s))
  {
    if Enabled(lim, st, s) && s.Pass? {
      var b, ts := s.b, st.passes[s.b] + [st.now];
      assert Spaced(st.passes[b], lim.gaps[b]);
      assert Spaced(ts, lim.gaps[b]) by {
        forall i | 0 < i < |ts|
          ensures ts[i - 1] + lim.gaps[b] <= ts[i]
        {
          if i < |ts| - 1 {
            assert ts[i - 1] == st.passes[b][i - 1] && ts[i] == st.passes[b][i];
          }
        }
      }
    }
  }

  // ---------------------------------------------------------------- records come from admissions

  /** Callers admitted and still to record. */
  function Held(cs: seq<Caller>): nat {
    if cs == [] then 0 else Held(cs[..|cs| - 1]) + if cs[|cs| - 1].Admitted? then 1 else 0
  }

  lemma {:induction false} HeldUpdate(cs: seq<Caller>, p: nat, c: Caller)
    requires p < |cs|
    ensures Held(cs[p := c]) == Held(cs) - (if cs[p].Admitted? then 1 else 0) + if c.Admitted? then 1 else 0
    ensures Held(cs) <= |cs|
  {
    var n := |cs| - 1;
    if n > 0 && p == n {
      HeldUpdate(cs[..n], 0, c);
    }
    if p == n {
      assert cs[p := c][..n] == cs[..n];
    } else {
      HeldUpdate(cs[..n], p, c);
      assert cs[p := c][..n] == cs[..n][p := c];
    }
  }

  ghost predicate Past(st: State) {
    && (forall i :: 0 <= i < |st.grants| ==> st.grants[i] <= st.now)
    && (forall i :: 0 <= i < |st.spent| ==> st.spent[i].at <= st.now)
  }

  /** Still open for records at the given instant. */
  predicate Open(now: Time, from: Time, width: Time) {
    now <= from + width
  }

  /**
   * What was recorded in a window, and what may still be recorded there by callers already admitted, is at most
   * one record per caller from before the window and the window's own admissions.
   */
  predicate Flow(st: State, from: Time, width: Time) {
    var held := if Open(st.now, from, width) then Held(st.callers) else 0;
    && GrantsIn(st.grants, from, width) + held <= |st.callers| + PassesIn(st.passes, from, width)
    && EntriesIn(st.spent, from, width) + held <= |st.callers| + PassesIn(st.passes, from, width)
  }

  lemma {:induction false} NoneYet(ts: seq<Time>, from: Time, width: Time)
    requires forall i :: 0 <= i < |ts| ==> ts[i] <= from
    ensures GrantsIn(ts, from, width) == 0
  {
    if ts != [] {
      NoneYet(ts[..|ts| - 1], from, width);
    }
  }

  lemma {:induction false} NoEntryYet(es: seq<Entry>, from: Time, width: Time)
    requires forall i :: 0 <= i < |es| ==> es[i].at <= from
    ensures EntriesIn(es, from, width) == 0
  {
    if es != [] {
      NoEntryYet(es[..|es| - 1], from, width);
    }
  }

  lemma PassKeepsFlow(lim: Limits, st: State, p: nat, b: nat, from: Time, width: Time)
    requires Past(st) && Flow(st, from, width) && Enabled(lim, st, Pass(p, b)) && width >= 0
    ensures Flow(Apply(lim, st, Pass(p, b)), from, width)
  {
    var c := Admitted(st.callers[p].est);
    HeldUpdate(st.callers, p, c);
    HeldUpdate(st.callers[p := c], p, c);
    OneMorePass(st.passes, b, st.now, from, width);
    if st.now <= from {
      NoneYet(st.grants, from, width);
      NoEntryYet(st.spent, from, width);
    }
  }

  lemma GrantKeepsFlow(lim: Limits, st: State, p: nat, t1: Time, t2: Time, from: Time, width: Time)
    requires Flow(st, from, width) && Enabled(lim, st, Grant(p, t1, t2))
    ensures Flow(Apply(lim, st, Grant(p, t1, t2)), from, width)
  {
    HeldUpdate(st.callers, p, Idle);
    GrantsSnoc(st.grants, t2, from, width);
    EntriesInSnoc(st.spent, Entry(t1, st.callers[p].est), from, width);
  }

  lemma GrantsSnoc(ts: seq<Time>, t: Time, from: Time, width: Time)
    ensures GrantsIn(ts + [t], from, width) == GrantsIn(ts, from, width) + if from < t <= from + width then 1 else 0
  {
    assert (ts + [t])[..|ts|] == ts;
  }

  lemma EntriesInSnoc(es: seq<Entry>, e: Entry, from: Time, width: Time)
    ensures EntriesIn(es + [e], from, width) ==
            EntriesIn(es, from, width) + if from < e.at <= from + width then 1 else 0
  {
    assert (es + [e])[..|es|] == es;
  }

  lemma StepKeepsFlow(lim: Limits, st: State, s: Step, from: Time, width: Time)
    requires Past(st) && Flow(st, from, width) && width >= 0
    ensures Flow(Apply(lim, st, s), from, width)
  {
    if !Enabled(lim, st, s) {
      return;
    }
    match s
    case Tick(to) =>
    case CheckDay(p, est) => HeldUpdate(st.callers, p, PassedDay(est));
    case CheckTokens(p) =>
      HeldUpdate(st.callers, p, Waiting(st.callers[p].est));
      HeldUpdate(st.callers, p, Idle);
    case Pass(p, b) => PassKeepsFlow(lim, st, p, b, from, width);
    case Grant(p, t1, t2) => GrantKeepsFlow(lim, st, p, t1, t2, from, width);
    case GiveUp(p) => HeldUpdate(st.callers, p, Idle);
  }

  lemma StepKeepsPast(lim: Limits, st: State, s: Step)
    requires Past(st)
    ensures Past(Apply(lim, st, s))
  {
  }

  lemma {:induction false} IdleHeld(n: nat)
    ensures Held(seq(n, i => Idle)) == 0
  {
    if n > 0 {
      IdleHeld(n - 1);
      assert seq(n, i => Idle)[..n - 1] == seq(n - 1, i => Idle);
    }
  }

  lemma {:induction false} RunsFlow(lim: Limits, n: nat, start: Time, steps: seq<Step>, from: Time, width: Time)
    requires width >= 0
    ensures var st := Run(lim, Initial(lim, n, start), steps);
            |st.callers| == n && Past(st) && PassInv(lim, st) && Flow(st, from, width)
  {
    if steps == [] {
      FlowStarts(lim, n, start, from, width);
    } else {
      var before, s := steps[..|steps| - 1], steps[|steps| - 1];
      RunsFlow(lim, n, start, before, from, width);
      FlowGoesOn(lim, Run(lim, Initial(lim, n, start), before), s, from, width);
    }
  }

  lemma FlowStarts(lim: Limits, n: nat, start: Time, from: Time, width: Time)
    requires width >= 0
    ensures var st := Initial(lim, n, start);
            |st.callers| == n && Past(st) && PassInv(lim, st) && Flow(st, from, width)
  {
    IdleHeld(n);
  }

  lemma FlowGoesOn(lim: Limits, st: State, s: Step, from: Time, width: Time)
    requires width >= 0 && Past(st) && PassInv(lim, st) && Flow(st, from, width)
    ensures var st' := Apply(lim, st, s);
            |st'.callers| == |st.callers| && Past(st') && PassInv(lim, st') && Flow(st', from, width)
  {
    StepKeepsPast(lim, st, s);
    StepKeepsPasses(lim, st, s);
    StepKeepsFlow(lim, st, s, from, width);
  }

  /** Over every run, a window holds at most one record per caller beyond what the buckets admit in it. */
  lemma BucketsHold(lim: Limits, n: nat, start: Time, steps: seq<Step>, from: Time, width: Time)
    requires Positive(lim.gaps) && width > 0
    ensures var st := Run(lim, Initial(lim, n, start), steps);
            && GrantsIn(st.grants, from, width) <= n + Admits(lim.gaps, width)
            && EntriesIn(st.spent, from, width) <= n + Admits(lim.gaps, width)
  {
    var st := Run(lim, Initial(lim, n, start), steps);
    RunsFlow(lim, n, start, steps, from, width);
    PassesFit(st.passes, lim.gaps, from, width);
  }
}
