/**
 * Several callers on one limiter. Each checks under the lock, waits for its bucket without
 * it, and records under the lock again, so between a check and its record others may pass.
 */
module QuotaMachine {
  import opened Quota

  datatype Caller = Idle | PassedDay(est: nat) | Waiting(est: nat) | Admitted(est: nat)

  /** The two window limits, and for each request bucket the least time between two requests it admits. */
  datatype Limits = Limits(tpm: int, rpd: int, gaps: seq<Time>)

  /**
   * The instant, the full logs of grants, where each caller is, and of each bucket the instant it admits
   * again and the instants it ever admitted at.
   */
  datatype State = State(
    now: Time, spent: seq<Entry>, grants: seq<Time>, callers: seq<Caller>, next: seq<Time>, passes: seq<seq<Time>>)

  /**
   * A bucket admits a waiting caller in a step of its own: between that and the record, which needs the
   * lock, the caller may be held up, so it is the admissions that are spaced and not the records.
   */
  datatype Step =
    | Tick(to: Time)
    | CheckDay(p: nat, est: nat)
    | CheckTokens(p: nat)
    | Pass(p: nat, b: nat)
    | Grant(p: nat, t1: Time, t2: Time)
    | GiveUp(p: nat)

  /** Idle callers, empty logs, and every bucket ready to admit one request. */
  function Initial(lim: Limits, n: nat, now: Time): State {
    State(now, [], [], seq(n, i => Idle), seq(|lim.gaps|, i => now), seq(|lim.gaps|, i => []))
  }

  predicate Enabled(lim: Limits, st: State, s: Step) {
    match s
    case Tick(to) => st.now <= to
    case CheckDay(p, est) => p < |st.callers| && st.callers[p].Idle?
    case CheckTokens(p) => p < |st.callers| && st.callers[p].PassedDay?
    case Pass(p, b) =>
      && p < |st.callers| && st.callers[p].Waiting?
      && b < |st.next| == |st.passes| == |lim.gaps| && st.next[b] <= st.now
    case Grant(p, t1, t2) => p < |st.callers| && st.callers[p].Admitted? && st.now <= t1 <= t2
    case GiveUp(p) => p < |st.callers| && st.callers[p].Waiting?
  }

  /** One step; a step that is not enabled does nothing. */
  function Apply(lim: Limits, st: State, s: Step): State {
    if !Enabled(lim, st, s) then st else
    match s
    case Tick(to) => st.(now := to)
    case CheckDay(p, est) =>
      if |After(st.grants, st.now - DAY)| < lim.rpd then st.(callers := st.callers[p := PassedDay(est)]) else st
    case CheckTokens(p) =>
      var est := st.callers[p].est;
      var ok := Sum(EntriesAfter(st.spent, st.now - MINUTE)) + est <= lim.tpm;
      st.(callers := st.callers[p := if ok then Waiting(est) else Idle])
    case Pass(p, b) =>
      st.(callers := st.callers[p := Admitted(st.callers[p].est)], next := st.next[b := st.now + lim.gaps[b]],
          passes := st.passes[b := st.passes[b] + [st.now]])
    case Grant(p, t1, t2) =>
      st.(now := t2, spent := st.spent + [Entry(t1, st.callers[p].est)], grants := st.grants + [t2],
          callers := st.callers[p := Idle])
    case GiveUp(p) => st.(callers := st.callers[p := Idle])
  }

  function Run(lim: Limits, st: State, steps: seq<Step>): State {
    if steps == [] then st else Apply(lim, Run(lim, st, steps[..|steps| - 1]), steps[|steps| - 1])
  }

  predicate Positive(gaps: seq<Time>) {
    forall b :: 0 <= b < |gaps| ==> gaps[b] > 0
  }

  predicate Sensible(lim: Limits, n: nat) {
    n >= 1 && lim.tpm > 0 && lim.rpd > 0 && |lim.gaps| > 0 && Positive(lim.gaps)
  }

  predicate Estimates(s: Step, most: nat) {
    s.CheckDay? ==> s.est <= most
  }

  // ---------------------------------------------------------------- windows

  /** Grants in (from, from + width]. */
  function GrantsIn(ts: seq<Time>, from: Time, width: Time): nat {
    if ts == [] then 0
    else GrantsIn(ts[..|ts| - 1], from, width) + if from < ts[|ts| - 1] <= from + width then 1 else 0
  }

  function TokensIn(es: seq<Entry>, from: Time, width: Time): int {
    if es == [] then 0
    else
      var e := es[|es| - 1];
      TokensIn(es[..|es| - 1], from, width) + if from < e.at <= from + width then e.tokens else 0
  }

  /** Entries in (from, from + width]. */
  function EntriesIn(es: seq<Entry>, from: Time, width: Time): nat {
    if es == [] then 0
    else EntriesIn(es[..|es| - 1], from, width) + if from < es[|es| - 1].at <= from + width then 1 else 0
  }
}
