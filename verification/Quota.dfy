/** The rolling-window quota limiter: its windows, pruned in place, against the full log of grants. */
module Quota {
  type Time = int

  const SECOND := 1_000_000_000
  const MINUTE := 60 * SECOND
  const DAY := 86400 * SECOND

  datatype Entry = Entry(at: Time, tokens: int)

  /** The instants after the cutoff, in order. */
  function After(ts: seq<Time>, cutoff: Time): seq<Time> {
    if ts == [] then []
    else
      var kept, t := After(ts[..|ts| - 1], cutoff), ts[|ts| - 1];
      if t > cutoff then kept + [t] else kept
  }

  function EntriesAfter(es: seq<Entry>, cutoff: Time): seq<Entry> {
    if es == [] then []
    else
      var kept, e := EntriesAfter(es[..|es| - 1], cutoff), es[|es| - 1];
      if e.at > cutoff then kept + [e] else kept
  }

  function Sum(es: seq<Entry>): int {
    if es == [] then 0 else Sum(es[..|es| - 1]) + es[|es| - 1].tokens
  }

  function Max(a: int, b: int): int {
    if a >= b then a else b
  }

  lemma {:induction false} AfterAfter(ts: seq<Time>, c: Time, c': Time)
    ensures After(After(ts, c), c') == After(ts, Max(c, c'))
  {
    if ts != [] {
      var kept, t := After(ts[..|ts| - 1], c), ts[|ts| - 1];
      AfterAfter(ts[..|ts| - 1], c, c');
      assert t > c ==> (kept + [t])[..|kept|] == kept;
    }
  }

  lemma {:induction false} EntriesAfterAfter(es: seq<Entry>, c: Time, c': Time)
    ensures EntriesAfter(EntriesAfter(es, c), c') == EntriesAfter(es, Max(c, c'))
  {
    if es != [] {
      var kept, e := EntriesAfter(es[..|es| - 1], c), es[|es| - 1];
      EntriesAfterAfter(es[..|es| - 1], c, c');
      assert e.at > c ==> (kept + [e])[..|kept|] == kept;
    }
  }

  lemma AfterSnoc(ts: seq<Time>, t: Time, c: Time)
    ensures After(ts + [t], c) == After(ts, c) + if t > c then [t] else []
  {
    assert (ts + [t])[..|ts|] == ts;
  }

  lemma EntriesSnoc(es: seq<Entry>, e: Entry, c: Time)
    ensures EntriesAfter(es + [e], c) == EntriesAfter(es, c) + if e.at > c then [e] else []
    ensures Sum(es + [e]) == Sum(es) + e.tokens
  {
    assert (es + [e])[..|es|] == es;
  }

  /** One move of an in-place compaction: i entries are kept, the k-th is looked at. */
  lemma CompactStep<T>(w: seq<T>, all: seq<T>, i: nat, k: nat)
    requires |w| == |all| && i <= k < |w| && w[k..] == all[k..]
    ensures w[k] == all[k] && w[k + 1..] == all[k + 1..]
    ensures var w' := w[i := w[k]]; w'[..i + 1] == w[..i] + [all[k]] && w'[k + 1..] == all[k + 1..]
  {
    assert w[k] == w[k..][0] && all[k] == all[k..][0];
    assert w[k + 1..] == w[k..][1..] && all[k + 1..] == all[k..][1..];
  }

  /** The loop of pruneRPD: kept instants move to the front of the same slice, which is then cut. */
  method CompactTimes(all: seq<Time>, cutoff: Time) returns (window: seq<Time>)
    ensures window == After(all, cutoff)
  {
    window := all;
    var i := 0;
    for k := 0 to |all|
      invariant |window| == |all| && i <= k
      invariant window[..i] == After(all[..k], cutoff)
      invariant window[k..] == all[k..]
    {
      assert all[..k + 1] == all[..k] + [all[k]];
      AfterSnoc(all[..k], all[k], cutoff);
      CompactStep(window, all, i, k);
      if window[k] > cutoff {
        window := window[i := window[k]];
        i := i + 1;
      }
    }
    assert all[..|all|] == all;
    window := window[..i];
  }

  /** The loop of pruneTPM: the same compaction, recomputing the total on the way. */
  method CompactEntries(all: seq<Entry>, cutoff: Time) returns (window: seq<Entry>, total: int)
    ensures window == EntriesAfter(all, cutoff) && total == Sum(window)
  {
    window, total := all, 0;
    var i := 0;
    for k := 0 to |all|
      invariant |window| == |all| && i <= k
      invariant window[..i] == EntriesAfter(all[..k], cutoff)
      invariant window[k..] == all[k..]
      invariant total == Sum(EntriesAfter(all[..k], cutoff))
    {
      assert all[..k + 1] == all[..k] + [all[k]];
      EntriesSnoc(all[..k], all[k], cutoff);
      EntriesSnoc(EntriesAfter(all[..k], cutoff), all[k], cutoff);
      CompactStep(window, all, i, k);
      if window[k].at > cutoff {
        total := total + window[k].tokens;
        window := window[i := window[k]];
        i := i + 1;
      }
    }
    assert all[..|all|] == all;
    window := window[..i];
  }

  // ---------------------------------------------------------------- request buckets

  /** Percent of the generate requests per priority. */
  datatype Split = Split(critical: int, high: int, normal: int, low: int)

  const DEFAULT_SPLIT := Split(20, 40, 25, 15)

  /** QuotaSplit.Normalize */
  function Normalize(s: Split): Split {
    if s.critical + s.high + s.normal + s.low != 100 then DEFAULT_SPLIT
    else if s.critical < 1 then s.(critical := 1)
    else s
  }

  /** The requests a minute a share of the total gives; never less than one. */
  function Requests(total: int, percent: int): (rpm: int)
    ensures rpm >= 1
  {
    var rpm := total * percent / 100;
    if rpm < 1 then 1 else rpm
  }

  /** The split the buckets really get: it is normalized once by the limiter and again for every bucket. */
  function Effective(s: Split): Split {
    Normalize(Normalize(s))
  }

  /**
   * A configured split takes effect exactly if it sums to 100 and leaves critical requests a share: raising a
   * missing critical share to one breaks the sum, and the second normalization falls back to the default.
   */
  lemma SplitTakesEffect(s: Split)
    ensures (Effective(s) == s <==> s.critical + s.high + s.normal + s.low == 100 && s.critical >= 1)
    ensures Effective(s) == s || Effective(s) == DEFAULT_SPLIT
  {
  }

  /** The time between two requests of a bucket of burst one, in whole nanoseconds. */
  function Gap(rpm: int): (gap: Time)
    requires rpm >= 1
    ensures 1 <= gap <= MINUTE
  {
    if rpm >= MINUTE then 1 else MINUTE / rpm
  }

  /** One bucket per priority, and the embedding bucket. */
  function Gaps(rpm: int, embedRPM: int, split: Split): (gaps: seq<Time>)
    ensures |gaps| == 5 && forall b :: 0 <= b < |gaps| ==> gaps[b] > 0
  {
    var total := if rpm <= 0 then 10 else rpm;
    var embed := if embedRPM > 0 then embedRPM else if total / 3 < 1 then 1 else total / 3;
    var s := Effective(split);
    [Gap(Requests(total, s.critical)), Gap(Requests(total, s.high)), Gap(Requests(total, s.normal)),
     Gap(Requests(total, s.low)), Gap(embed)]
  }

  /** When each bucket admits again, after the b-th admitted a request. */
  function Taken(next: seq<Time>, gaps: seq<Time>, b: nat, now: Time): seq<Time>
    requires b < |next| == |gaps|
  {
    next[b := now + gaps[b]]
  }

  datatype Request = Generate(priority: int) | Embed

  /** The bucket a request waits for; an unknown priority counts as normal. */
  function BucketOf(r: Request): (b: nat)
    ensures b < 5
  {
    match r
    case Generate(p) => if 0 <= p < 4 then p else 2
    case Embed => 4
  }

  /**
   * Of the five buckets only the request's own moves, to its gap after the admission: critical, high, normal and
   * low requests each have one, an unknown priority takes the normal one, and embeddings have theirs.
   */
  predicate OwnBucketMoves(r: Request, old_: seq<Time>, new_: seq<Time>, gaps: seq<Time>, at: Time)
    requires |old_| == |gaps| == 5
  {
    match r
    case Embed => new_ == [old_[0], old_[1], old_[2], old_[3], at + gaps[4]]
    case Generate(p) =>
      && (p == 0 ==> new_ == [at + gaps[0], old_[1], old_[2], old_[3], old_[4]])
      && (p == 1 ==> new_ == [old_[0], at + gaps[1], old_[2], old_[3], old_[4]])
      && (p == 3 ==> new_ == [old_[0], old_[1], old_[2], at + gaps[3], old_[4]])
      && (p != 0 && p != 1 && p != 3 ==> new_ == [old_[0], old_[1], at + gaps[2], old_[3], old_[4]])
  }

  lemma TakenIsOwn(r: Request, next: seq<Time>, gaps: seq<Time>, at: Time)
    requires |next| == |gaps| == 5
    ensures OwnBucketMoves(r, next, Taken(next, gaps, BucketOf(r), at), gaps, at)
  {
  }

  /** QuotaLimiter; of a request bucket it keeps the instant from which the bucket admits again. */
  class QuotaLimiter {
    const tpmMax: int
    const rpdMax: int
    const gaps: seq<Time>
    var next: seq<Time>
    var tpmWindow: seq<Entry>
    var tpmTotal: int
    var rpdWindow: seq<Time>
    var rpdThrottles: nat
    var tpmThrottles: nat

    /** Everything ever granted, and the latest cutoff each window was pruned to. */
    ghost var grants: seq<Time>
    ghost var spent: seq<Entry>
    ghost var rpdCut: Time
    ghost var tpmCut: Time

    /** The windows are the logs after their cutoffs, and the total is the window's. */
    ghost predicate Valid()
      reads this
    {
      && rpdWindow == After(grants, rpdCut)
      && tpmWindow == EntriesAfter(spent, tpmCut)
      && tpmTotal == Sum(tpmWindow)
      && tpmMax > 0 && rpdMax > 0
      && |next| == |gaps| == 5
    }

    /** Fewer grants than the limit in the last day, by the full log. */
    ghost predicate DayFree(now: Time)
      reads this
    {
      |After(grants, now - DAY)| < rpdMax
    }

    /** The last minute's tokens and the estimate within the limit, by the full log. */
    ghost predicate TokensFree(now: Time, est: int)
      reads this
    {
      Sum(EntriesAfter(spent, now - MINUTE)) + est <= tpmMax
    }

    /** A limit that is not positive takes its default. */
    constructor (rpm: int, embedRPM: int, split: Split, tpm: int, rpd: int, start: Time)
      ensures Valid() && grants == [] && spent == [] && rpdCut == start - DAY && tpmCut == start - MINUTE
      ensures gaps == Gaps(rpm, embedRPM, split) && next == seq(5, i => start)
      ensures tpmMax == (if tpm <= 0 then 250_000 else tpm) && rpdMax == if rpd <= 0 then 1500 else rpd
    {
      tpmMax := if tpm <= 0 then 250_000 else tpm;
      rpdMax := if rpd <= 0 then 1500 else rpd;
      gaps, next := Gaps(rpm, embedRPM, split), seq(5, i => start);
      tpmWindow, tpmTotal, rpdWindow, rpdThrottles, tpmThrottles := [], 0, [], 0, 0;
      grants, spent, rpdCut, tpmCut := [], [], start - DAY, start - MINUTE;
    }

    /** The bucket lets a request through, which its Wait does no earlier than the gap after the one before. */
    method Admit(b: nat, now: Time)
      requires Valid() && b < |next| && next[b] <= now
      modifies this`next
      ensures Valid() && next == Taken(old(next), gaps, b, now)
    {
      next := next[b := now + gaps[b]];
    }

    /** pruneRPD */
    method PruneRPD(now: Time)
      requires Valid()
      modifies this`rpdWindow, this`rpdCut
      ensures Valid() && rpdCut == Max(old(rpdCut), now - DAY)
      ensures rpdWindow == After(old(rpdWindow), now - DAY)
    {
      AfterAfter(grants, rpdCut, now - DAY);
      rpdWindow := CompactTimes(rpdWindow, now - DAY);
      rpdCut := Max(rpdCut, now - DAY);
    }

    /** pruneTPM */
    method PruneTPM(now: Time)
      requires Valid()
      modifies this`tpmWindow, this`tpmTotal, this`tpmCut
      ensures Valid() && tpmCut == Max(old(tpmCut), now - MINUTE)
      ensures tpmWindow == EntriesAfter(old(tpmWindow), now - MINUTE)
    {
      EntriesAfterAfter(spent, tpmCut, now - MINUTE);
      tpmWindow, tpmTotal := CompactEntries(tpmWindow, now - MINUTE);
      tpmCut := Max(tpmCut, now - MINUTE);
    }

    /** checkRPD: with a clock that does not run back, the log itself decides. */
    method CheckRPD(now: Time) returns (ok: bool)
      requires Valid()
      modifies this`rpdWindow, this`rpdCut
      ensures Valid() && rpdCut == Max(old(rpdCut), now - DAY)
      ensures ok <==> |After(grants, rpdCut)| < rpdMax
    {
      PruneRPD(now);
      ok := |rpdWindow| < rpdMax;
    }

    /** checkTPM */
    method CheckTPM(now: Time, est: int) returns (ok: bool)
      requires Valid()
      modifies this`tpmWindow, this`tpmTotal, this`tpmCut
      ensures Valid() && tpmCut == Max(old(tpmCut), now - MINUTE)
      ensures ok <==> Sum(EntriesAfter(spent, tpmCut)) + est <= tpmMax
    {
      PruneTPM(now);
      ok := tpmTotal + est <= tpmMax;
    }

    /** recordTPM */
    method RecordTPM(est: int, now: Time)
      requires Valid() && tpmCut < now
      modifies this`tpmWindow, this`tpmTotal, this`tpmCut, this`spent
      ensures Valid() && spent == old(spent) + [Entry(now, est)]
      ensures tpmCut == Max(old(tpmCut), now - MINUTE)
    {
      PruneTPM(now);
      EntriesSnoc(tpmWindow, Entry(now, est), tpmCut);
      EntriesSnoc(spent, Entry(now, est), tpmCut);
      tpmWindow := tpmWindow + [Entry(now, est)];
      tpmTotal := tpmTotal + est;
      spent := spent + [Entry(now, est)];
    }

    /** recordRPD */
    method RecordRPD(now: Time)
      requires Valid() && rpdCut < now
      modifies this`rpdWindow, this`rpdCut, this`grants
      ensures Valid() && grants == old(grants) + [now]
      ensures rpdCut == Max(old(rpdCut), now - DAY)
    {
      PruneRPD(now);
      AfterSnoc(grants, now, rpdCut);
      rpdWindow := rpdWindow + [now];
      grants := grants + [now];
    }

    /**
     * wait, run by one caller: the two checks, the bucket, the record. The readings t1..t4 are the clock's at the
     * four points the code reads it; the bucket admits at `through`, unless the caller's context ends first.
     */
    method Wait(r: Request, est: int, ended: bool, t1: Time, t2: Time, through: Time, t3: Time, t4: Time)
      returns (granted: bool)
      requires Valid() && t1 <= t2 <= through <= t3 <= t4 && next[BucketOf(r)] <= through
      requires rpdCut <= t1 - DAY && tpmCut <= t2 - MINUTE
      modifies this
      ensures Valid()
      ensures granted <==> old(DayFree(t1)) && old(TokensFree(t2, est)) && !ended
      ensures granted ==> grants == old(grants) + [t4] && spent == old(spent) + [Entry(t3, est)]
      ensures granted ==> OwnBucketMoves(r, old(next), next, gaps, through)
      ensures !granted ==> grants == old(grants) && spent == old(spent) && next == old(next)
      ensures rpdCut <= t4 - DAY && tpmCut <= t4 - MINUTE
      ensures var dayOk, tokensOk := old(DayFree(t1)), old(TokensFree(t2, est));
              && rpdThrottles == old(rpdThrottles) + (if dayOk then 0 else 1)
              && tpmThrottles == old(tpmThrottles) + if dayOk && !tokensOk then 1 else 0
    {
      var ok := BothChecks(est, t1, t2);
      if !ok || ended {
        return false;
      }
      granted := true;
      Record(r, est, through, t3, t4);
    }

    /** Past the bucket, the use is recorded. */
    method Record(r: Request, est: int, through: Time, t3: Time, t4: Time)
      requires Valid() && next[BucketOf(r)] <= through <= t3 <= t4
      requires rpdCut <= through - DAY && tpmCut <= through - MINUTE
      modifies this`next, this`grants, this`spent, this`rpdWindow, this`rpdCut,
               this`tpmWindow, this`tpmTotal, this`tpmCut
      ensures Valid() && OwnBucketMoves(r, old(next), next, gaps, through)
      ensures grants == old(grants) + [t4] && spent == old(spent) + [Entry(t3, est)]
      ensures rpdCut <= t4 - DAY && tpmCut <= t4 - MINUTE
    {
      TakenIsOwn(r, next, gaps, through);
      Admit(BucketOf(r), through);
      RecordTPM(est, t3);
      RecordRPD(t4);
    }

    /** The two checks at the head of wait, each counting what it refuses. */
    method BothChecks(est: int, t1: Time, t2: Time) returns (ok: bool)
      requires Valid() && t1 <= t2 && rpdCut <= t1 - DAY && tpmCut <= t2 - MINUTE
      modifies this`rpdWindow, this`rpdCut, this`tpmWindow, this`tpmTotal, this`tpmCut,
               this`rpdThrottles, this`tpmThrottles
      ensures Valid() && rpdCut <= t2 - DAY && tpmCut <= t2 - MINUTE
      ensures var dayOk, tokensOk := old(DayFree(t1)), old(TokensFree(t2, est));
              && ok == (dayOk && tokensOk)
              && rpdThrottles == old(rpdThrottles) + (if dayOk then 0 else 1)
              && tpmThrottles == old(tpmThrottles) + if dayOk && !tokensOk then 1 else 0
    {
      ok := CheckRPD(t1);
      if !ok {
        rpdThrottles := rpdThrottles + 1;
        return false;
      }
      ok := CheckTPM(t2, est);
      if !ok {
        tpmThrottles := tpmThrottles + 1;
      }
    }
  }
}
