/** Warm-path batch analysis: bisection on retryable failures, then the engage pass over High leads. */
module Batch {
  import opened Text

  datatype Outcome<R> = Ok(out: seq<R>) | Retryable(message: string) | Fatal(message: string)

  /** A successful analyser call: its number, the batch it was given and what it returned. */
  datatype Part<I, R> = Part(call: nat, batch: seq<I>, out: seq<R>)

  /** What a bisection did: its outcome, how many calls it made, and the successful ones in order. */
  datatype Trail<I, R> = Trail(outcome: Outcome<R>, calls: nat, parts: seq<Part<I, R>>)

  /** analyzeLeadBatchWithRetry; the analyser may answer differently at each call, so it is given the call's number. */
  function Bisect<I, R>(fn: (nat, seq<I>) -> Outcome<R>, items: seq<I>, n: nat): Trail<I, R>
    decreases |items|
  {
    if items == [] then Trail(Ok([]), 0, [])
    else
      var first := fn(n, items);
      if first.Ok? then Trail(first, 1, [Part(n, items, first.out)])
      else if |items| == 1 || first.Fatal? then Trail(first, 1, [])
      else
        var mid := |items| / 2;
        var left := Bisect(fn, items[..mid], n + 1);
        if !left.outcome.Ok? then Trail(left.outcome, 1 + left.calls, [])
        else
          var right := Bisect(fn, items[mid..], n + 1 + left.calls);
          Join(left, right)
  }

  /** A failed call and its two halves, the first of which succeeded. */
  function Join<I, R>(left: Trail<I, R>, right: Trail<I, R>): Trail<I, R>
    requires left.outcome.Ok?
  {
    var calls := 1 + left.calls + right.calls;
    if !right.outcome.Ok? then Trail(right.outcome, calls, [])
    else Trail(Ok(left.outcome.out + right.outcome.out), calls, left.parts + right.parts)
  }

  function Batches<I, R>(parts: seq<Part<I, R>>): seq<I> {
    if parts == [] then [] else parts[0].batch + Batches(parts[1..])
  }

  function Outputs<I, R>(parts: seq<Part<I, R>>): seq<R> {
    if parts == [] then [] else parts[0].out + Outputs(parts[1..])
  }

  /** The part is a call the analyser was actually asked, and answered so. */
  predicate Called<I(==), R(==)>(fn: (nat, seq<I>) -> Outcome<R>, p: Part<I, R>, lo: nat, hi: nat) {
    p.batch != [] && lo <= p.call < hi && fn(p.call, p.batch) == Ok(p.out)
  }

  lemma Associative<T>(a: seq<T>, b: seq<T>, c: seq<T>)
    ensures a + (b + c) == (a + b) + c
  {
  }

  lemma {:induction false} BatchesConcat<I, R>(a: seq<Part<I, R>>, b: seq<Part<I, R>>)
    ensures Batches(a + b) == Batches(a) + Batches(b)
  {
    if a == [] {
      assert a + b == b;
    } else {
      BatchesConcat(a[1..], b);
      assert (a + b)[1..] == a[1..] + b && (a + b)[0] == a[0];
      Associative(a[0].batch, Batches(a[1..]), Batches(b));
    }
  }

  lemma {:induction false} OutputsConcat<I, R>(a: seq<Part<I, R>>, b: seq<Part<I, R>>)
    ensures Outputs(a + b) == Outputs(a) + Outputs(b)
  {
    if a == [] {
      assert a + b == b;
    } else {
      OutputsConcat(a[1..], b);
      assert (a + b)[1..] == a[1..] + b && (a + b)[0] == a[0];
      Associative(a[0].out, Outputs(a[1..]), Outputs(b));
    }
  }

  /** At most 2n - 1 calls for n items. */
  lemma {:induction false} BisectCalls<I, R>(fn: (nat, seq<I>) -> Outcome<R>, items: seq<I>, n: nat)
    ensures items != [] ==> 1 <= Bisect(fn, items, n).calls <= 2 * |items| - 1
    decreases |items|
  {
    if |items| > 1 && fn(n, items).Retryable? {
      var mid := |items| / 2;
      var left := Bisect(fn, items[..mid], n + 1);
      var right := Bisect(fn, items[mid..], n + 1 + left.calls);
      BisectUnfolds(fn, items, n);
      BisectCalls(fn, items[..mid], n + 1);
      BisectCalls(fn, items[mid..], n + 1 + left.calls);
      assert 1 <= left.calls <= 2 * mid - 1 && 1 <= right.calls <= 2 * (|items| - mid) - 1;
    }
  }

  /** One level of the bisection. */
  lemma BisectUnfolds<I, R>(fn: (nat, seq<I>) -> Outcome<R>, items: seq<I>, n: nat)
    requires |items| > 1 && fn(n, items).Retryable?
    ensures var mid := |items| / 2;
            var left := Bisect(fn, items[..mid], n + 1);
            var right := Bisect(fn, items[mid..], n + 1 + left.calls);
            Bisect(fn, items, n) ==
            if !left.outcome.Ok? then Trail(left.outcome, 1 + left.calls, [])
            else Join(left, right)
  {
  }

  lemma CalledWider<I, R>(fn: (nat, seq<I>) -> Outcome<R>, parts: seq<Part<I, R>>, lo: nat, hi: nat, lo': nat, hi': nat)
    requires lo' <= lo && hi <= hi' && AllCalled(fn, parts, lo, hi)
    ensures AllCalled(fn, parts, lo', hi')
  {
  }

  lemma CalledConcat<I, R>(fn: (nat, seq<I>) -> Outcome<R>, a: seq<Part<I, R>>, b: seq<Part<I, R>>, lo: nat, hi: nat)
    requires AllCalled(fn, a, lo, hi) && AllCalled(fn, b, lo, hi)
    ensures AllCalled(fn, a + b, lo, hi)
  {
  }

  predicate AllCalled<I(==), R(==)>(fn: (nat, seq<I>) -> Outcome<R>, parts: seq<Part<I, R>>, lo: nat, hi: nat) {
    forall i | 0 <= i < |parts| :: Called(fn, parts[i], lo, hi)
  }

  /** The parts cover the items and give the output, each from a call numbered in [lo, hi). */
  ghost predicate Covers<I, R>(
      fn: (nat, seq<I>) -> Outcome<R>, parts: seq<Part<I, R>>, items: seq<I>, out: seq<R>, lo: nat, hi: nat) {
    Batches(parts) == items && Outputs(parts) == out && AllCalled(fn, parts, lo, hi)
  }

  lemma CoversWhole<I, R>(fn: (nat, seq<I>) -> Outcome<R>, items: seq<I>, n: nat, out: seq<R>)
    requires items != [] && fn(n, items) == Ok(out)
    ensures Covers(fn, [Part(n, items, out)], items, out, n, n + 1)
  {
    var parts, none: seq<Part<I, R>> := [Part(n, items, out)], [];
    assert parts[1..] == none && Batches(none) == [] && Outputs(none) == [];
  }

  /** A successful trail covers its items with the calls it made from number n on. */
  ghost predicate Complete<I, R>(fn: (nat, seq<I>) -> Outcome<R>, items: seq<I>, n: nat, t: Trail<I, R>) {
    t.outcome.Ok? ==> Covers(fn, t.parts, items, t.outcome.out, n, n + t.calls)
  }

  lemma JoinComplete<I, R>(
      fn: (nat, seq<I>) -> Outcome<R>, a: Trail<I, R>, b: Trail<I, R>, items: seq<I>, mid: nat, n: nat)
    requires mid <= |items| && a.outcome.Ok?
    requires Complete(fn, items[..mid], n + 1, a) && Complete(fn, items[mid..], n + 1 + a.calls, b)
    ensures Complete(fn, items, n, Join(a, b))
  {
    assert items[..mid] + items[mid..] == items;
    if b.outcome.Ok? {
      BatchesConcat(a.parts, b.parts);
      OutputsConcat(a.parts, b.parts);
      CalledWider(fn, a.parts, n + 1, n + 1 + a.calls, n, n + 1 + a.calls + b.calls);
      CalledWider(fn, b.parts, n + 1 + a.calls, n + 1 + a.calls + b.calls, n, n + 1 + a.calls + b.calls);
      CalledConcat(fn, a.parts, b.parts, n, n + 1 + a.calls + b.calls);
    }
  }

  lemma OneCallComplete<I, R>(fn: (nat, seq<I>) -> Outcome<R>, items: seq<I>, n: nat)
    requires !(|items| > 1 && fn(n, items).Retryable?)
    ensures Complete(fn, items, n, Bisect(fn, items, n))
  {
    if items != [] && fn(n, items).Ok? {
      CoversWhole(fn, items, n, fn(n, items).out);
    }
  }

  /**
   * On success the items are covered, in order and without gap or overlap, by batches the
   * analyser was asked for, and the result is its answers in the same order.
   */
  lemma {:induction false} BisectPartitions<I, R>(fn: (nat, seq<I>) -> Outcome<R>, items: seq<I>, n: nat)
    ensures Complete(fn, items, n, Bisect(fn, items, n))
    decreases |items|
  {
    if |items| > 1 && fn(n, items).Retryable? {
      var mid := |items| / 2;
      var left := Bisect(fn, items[..mid], n + 1);
      BisectPartitions(fn, items[..mid], n + 1);
      BisectPartitions(fn, items[mid..], n + 1 + left.calls);
      if left.outcome.Ok? {
        JoinComplete(fn, left, Bisect(fn, items[mid..], n + 1 + left.calls), items, mid, n);
      }
      BisectUnfolds(fn, items, n);
    } else {
      OneCallComplete(fn, items, n);
    }
  }

  function Map<I, R>(f: I -> R, xs: seq<I>): seq<R> {
    seq(|xs|, i requires 0 <= i < |xs| => f(xs[i]))
  }

  lemma MapConcat<I, R>(f: I -> R, xs: seq<I>, ys: seq<I>)
    ensures Map(f, xs + ys) == Map(f, xs) + Map(f, ys)
  {
  }

  lemma {:induction false} PointwiseParts<I, R>(parts: seq<Part<I, R>>, f: I -> R)
    requires forall p | p in parts :: p.out == Map(f, p.batch)
    ensures Outputs(parts) == Map(f, Batches(parts))
  {
    if parts != [] {
      assert parts[0] in parts;
      PointwiseParts(parts[1..], f);
      MapConcat(f, parts[0].batch, Batches(parts[1..]));
    }
  }

  /** An analyser that answers item by item gives, through whatever failures, the answers to all items in order. */
  lemma PointwiseBisect<I, R>(fn: (nat, seq<I>) -> Outcome<R>, items: seq<I>, n: nat, f: I -> R)
    requires forall k: nat, batch: seq<I> :: fn(k, batch).Ok? ==> fn(k, batch).out == Map(f, batch)
    ensures Bisect(fn, items, n).outcome.Ok? ==> Bisect(fn, items, n).outcome.out == Map(f, items)
  {
    var t := Bisect(fn, items, n);
    if t.outcome.Ok? {
      BisectPartitions(fn, items, n);
      forall p | p in t.parts
        ensures p.out == Map(f, p.batch)
      {
        var i :| 0 <= i < |t.parts| && t.parts[i] == p;
        assert Called(fn, t.parts[i], n, n + t.calls);
        var k, batch := p.call, p.batch;
        assert fn(k, batch).Ok? ==> fn(k, batch).out == Map(f, batch);
      }
      PointwiseParts(t.parts, f);
    }
  }

  /** The batches the analyser was asked for, in the order of the calls. */
  function Asked<I, R>(fn: (nat, seq<I>) -> Outcome<R>, items: seq<I>, n: nat): seq<seq<I>>
    decreases |items|
  {
    if items == [] then []
    else if |items| > 1 && fn(n, items).Retryable? then
      var mid := |items| / 2;
      var left := Bisect(fn, items[..mid], n + 1);
      var first := [items] + Asked(fn, items[..mid], n + 1);
      if left.outcome.Ok? then first + Asked(fn, items[mid..], n + 1 + left.calls) else first
    else [items]
  }

  /** A call no bisection can save: a fatal error, or the failure of a single item. */
  predicate Breaks<I, R>(fn: (nat, seq<I>) -> Outcome<R>, k: nat, batch: seq<I>) {
    fn(k, batch).Fatal? || (|batch| == 1 && !fn(k, batch).Ok?)
  }

  predicate NoneBreaks<I, R>(fn: (nat, seq<I>) -> Outcome<R>, asked: seq<seq<I>>, n: nat) {
    forall i: nat | i < |asked| :: !Breaks(fn, n + i, asked[i])
  }

  /** The calls are numbered from n on; the first one that breaks, and only it, ends the trail with its error. */
  ghost predicate Explains<I, R>(fn: (nat, seq<I>) -> Outcome<R>, asked: seq<seq<I>>, n: nat, t: Trail<I, R>) {
    && |asked| == t.calls
    && (t.outcome.Ok? ==> NoneBreaks(fn, asked, n))
    && (!t.outcome.Ok? ==>
          && asked != []
          && var last := |asked| - 1;
             && NoneBreaks(fn, asked[..last], n)
             && Breaks(fn, n + last, asked[last]) && t.outcome == fn(n + last, asked[last]))
  }

  lemma NoneBreaksConcat<I, R>(fn: (nat, seq<I>) -> Outcome<R>, a: seq<seq<I>>, b: seq<seq<I>>, n: nat)
    requires NoneBreaks(fn, a, n) && NoneBreaks(fn, b, n + |a|)
    ensures NoneBreaks(fn, a + b, n)
  {
    forall i: nat | i < |a + b|
      ensures !Breaks(fn, n + i, (a + b)[i])
    {
      if i >= |a| {
        assert !Breaks(fn, (n + |a|) + (i - |a|), b[i - |a|]);
      }
    }
  }

  /** After calls that did not break, a further trail is explained by all calls together. */
  lemma ExplainsAfter<I, R>(
      fn: (nat, seq<I>) -> Outcome<R>, before: seq<seq<I>>, asked: seq<seq<I>>, n: nat, t: Trail<I, R>,
      whole: Trail<I, R>)
    requires NoneBreaks(fn, before, n) && Explains(fn, asked, n + |before|, t)
    requires whole.calls == |before| + t.calls && whole.outcome.Ok? == t.outcome.Ok?
    requires !t.outcome.Ok? ==> whole.outcome == t.outcome
    ensures Explains(fn, before + asked, n, whole)
  {
    if t.outcome.Ok? {
      NoneBreaksConcat(fn, before, asked, n);
    } else {
      var last := |asked| - 1;
      NoneBreaksConcat(fn, before, asked[..last], n);
      assert (before + asked)[..|before| + last] == before + asked[..last];
      assert (before + asked)[|before| + last] == asked[last];
    }
  }

  lemma {:induction false} BisectExplained<I, R>(fn: (nat, seq<I>) -> Outcome<R>, items: seq<I>, n: nat)
    ensures Explains(fn, Asked(fn, items, n), n, Bisect(fn, items, n))
    decreases |items|
  {
    if |items| > 1 && fn(n, items).Retryable? {
      var mid := |items| / 2;
      var left := Bisect(fn, items[..mid], n + 1);
      BisectExplained(fn, items[..mid], n + 1);
      BisectExplained(fn, items[mid..], n + 1 + left.calls);
      HalvesExplained(fn, items, n, Asked(fn, items[..mid], n + 1), Asked(fn, items[mid..], n + 1 + left.calls),
                      left, Bisect(fn, items[mid..], n + 1 + left.calls));
      BisectUnfolds(fn, items, n);
      AskedUnfolds(fn, items, n);
    } else {
      OneCallExplained(fn, items, n);
    }
  }

  lemma AskedUnfolds<I, R>(fn: (nat, seq<I>) -> Outcome<R>, items: seq<I>, n: nat)
    requires |items| > 1 && fn(n, items).Retryable?
    ensures var mid := |items| / 2;
            var left := Bisect(fn, items[..mid], n + 1);
            Asked(fn, items, n) ==
            if left.outcome.Ok?
            then [items] + Asked(fn, items[..mid], n + 1) + Asked(fn, items[mid..], n + 1 + left.calls)
            else [items] + Asked(fn, items[..mid], n + 1)
  {
  }

  lemma OneCallExplained<I, R>(fn: (nat, seq<I>) -> Outcome<R>, items: seq<I>, n: nat)
    requires !(|items| > 1 && fn(n, items).Retryable?)
    ensures Explains(fn, Asked(fn, items, n), n, Bisect(fn, items, n))
  {
    if items != [] {
      OneCall(fn, items, n);
      ExplainedByOne(fn, items, n, Bisect(fn, items, n));
    }
  }

  lemma OneCall<I, R>(fn: (nat, seq<I>) -> Outcome<R>, items: seq<I>, n: nat)
    requires items != [] && !(|items| > 1 && fn(n, items).Retryable?)
    ensures Asked(fn, items, n) == [items]
    ensures Bisect(fn, items, n).calls == 1 && Bisect(fn, items, n).outcome == fn(n, items)
  {
  }

  lemma ExplainedByOne<I, R>(fn: (nat, seq<I>) -> Outcome<R>, items: seq<I>, n: nat, t: Trail<I, R>)
    requires items != [] && !(|items| > 1 && fn(n, items).Retryable?)
    requires t.calls == 1 && t.outcome == fn(n, items)
    ensures Explains(fn, [items], n, t)
  {
  }

  lemma HalvesExplained<I, R>(
      fn: (nat, seq<I>) -> Outcome<R>, items: seq<I>, n: nat, a: seq<seq<I>>, b: seq<seq<I>>, left: Trail<I, R>,
      right: Trail<I, R>)
    requires |items| > 1 && fn(n, items).Retryable?
    requires Explains(fn, a, n + 1, left) && Explains(fn, b, n + 1 + left.calls, right)
    ensures left.outcome.Ok? ==> Explains(fn, [items] + a + b, n, Join(left, right))
    ensures !left.outcome.Ok? ==> Explains(fn, [items] + a, n, Trail(left.outcome, 1 + left.calls, []))
  {
    assert NoneBreaks(fn, [items], n);
    if left.outcome.Ok? {
      NoneBreaksConcat(fn, [items], a, n);
      ExplainsAfter(fn, [items] + a, b, n, right, Join(left, right));
    } else {
      ExplainsAfter(fn, [items], a, n, left, Trail(left.outcome, 1 + left.calls, []));
    }
  }

  /** The trail ended well, or at the last call asked for, which is the first that broke. */
  ghost predicate EndsAt<I, R>(fn: (nat, seq<I>) -> Outcome<R>, asked: seq<seq<I>>, n: nat, t: Trail<I, R>) {
    && (t.outcome.Ok? <==> NoneBreaks(fn, asked, n))
    && |asked| == t.calls
    && (!t.outcome.Ok? ==>
          && asked != [] && NoneBreaks(fn, asked[..|asked| - 1], n)
          && t.outcome == fn(n + |asked| - 1, asked[|asked| - 1]))
  }

  lemma ExplainedEnds<I, R>(fn: (nat, seq<I>) -> Outcome<R>, asked: seq<seq<I>>, n: nat, t: Trail<I, R>)
    requires Explains(fn, asked, n, t)
    ensures EndsAt(fn, asked, n, t)
  {
    if !t.outcome.Ok? {
      var last: nat := |asked| - 1;
      assert Breaks(fn, n + last, asked[last]);
    }
  }

  /**
   * A bisection succeeds exactly if none of the calls it makes is fatal or fails on a single item; otherwise it
   * stops at the first such call and returns its error.
   */
  lemma BisectSucceeds<I, R>(fn: (nat, seq<I>) -> Outcome<R>, items: seq<I>, n: nat)
    ensures EndsAt(fn, Asked(fn, items, n), n, Bisect(fn, items, n))
  {
    BisectExplained(fn, items, n);
    ExplainedEnds(fn, Asked(fn, items, n), n, Bisect(fn, items, n));
  }

  // ---------------------------------------------------------------- leads

  datatype Item = Item(id: string, source: string, priority: string, contactTypes: seq<string>)

  datatype Engagement = Engagement(
    pilotSignals: seq<string>, pilotQualified: bool, pilotWhy: string,
    channel: string, subject: string, angle: string, draft: string)

  datatype Enrichment = Enrichment(companyType: string, confidence: string, summary: string)

  datatype Lead = Lead(
    id: string, geo: string, icp: string, engagement: Engagement, enrichment: Enrichment,
    pilotQualified: bool, pilotTags: seq<string>)

  const NO_ITEM := Item("", "", "", [])

  predicate IsHigh(i: Item) {
    Lower(Trim(i.priority)) == "high"
  }

  function HighOnly(items: seq<Item>): seq<Item> {
    if items == [] then []
    else
      var before, i := HighOnly(items[..|items| - 1]), items[|items| - 1];
      if IsHigh(i) then before + [i] else before
  }

  method FilterHigh(items: seq<Item>) returns (out: seq<Item>)
    ensures out == HighOnly(items)
  {
    out := [];
    for i := 0 to |items|
      invariant out == HighOnly(items[..i])
    {
      assert items[..i + 1][..i] == items[..i];
      if IsHigh(items[i]) {
        out := out + [items[i]];
      }
    }
    assert items[..|items|] == items;
  }

  /** The last item, or result, of each id. */
  function ById(items: seq<Item>): map<string, Item> {
    if items == [] then map[] else ById(items[..|items| - 1])[items[|items| - 1].id := items[|items| - 1]]
  }

  function LeadById(leads: seq<Lead>): map<string, Lead> {
    if leads == [] then map[] else LeadById(leads[..|leads| - 1])[leads[|leads| - 1].id := leads[|leads| - 1]]
  }

  /** ReconcileEngagement: only the channel and, off email, the subject change. */
  function Reconcile(pick: (string, seq<string>, string) -> string, e: Engagement, i: Item): Engagement {
    var ch := pick(e.channel, i.contactTypes, i.source);
    e.(channel := ch, subject := if ch == "email" then e.subject else "")
  }

  /** mergeEngageResults on one result. */
  function Engaged(
      pick: (string, seq<string>, string) -> string, r: Lead, engage: map<string, Lead>,
      items: map<string, Item>): Lead {
    if r.id !in engage then r
    else
      var ex, i := engage[r.id], if r.id in items then items[r.id] else NO_ITEM;
      r.(engagement := Reconcile(pick, ex.engagement, i),
         enrichment := if ex.enrichment.companyType != "" || ex.enrichment.summary != "" then ex.enrichment
                       else r.enrichment)
  }

  /** Same lead, same verdicts: everything but the outreach and the enrichment. */
  predicate SameVerdict(a: Lead, b: Lead) {
    && a.id == b.id && a.geo == b.geo && a.icp == b.icp
    && a.pilotQualified == b.pilotQualified && a.pilotTags == b.pilotTags
  }

  method IndexItems(items: seq<Item>) returns (m: map<string, Item>)
    ensures m == ById(items)
  {
    m := map[];
    for i := 0 to |items|
      invariant m == ById(items[..i])
    {
      assert items[..i + 1][..i] == items[..i];
      m := m[items[i].id := items[i]];
    }
    assert items[..|items|] == items;
  }

  /** mergeEngageResults, in place. */
  method MergeEngage(
      pick: (string, seq<string>, string) -> string, core: array<Lead>, engage: seq<Lead>, byID: map<string, Item>)
    modifies core
    ensures forall i :: 0 <= i < core.Length ==> core[i] == Engaged(pick, old(core[i]), LeadById(engage), byID)
  {
    var engageByID: map<string, Lead> := map[];
    for i := 0 to |engage|
      invariant engageByID == LeadById(engage[..i])
    {
      assert engage[..i + 1][..i] == engage[..i];
      engageByID := engageByID[engage[i].id := engage[i]];
    }
    assert engage[..|engage|] == engage;
    for i := 0 to core.Length
      invariant forall j :: 0 <= j < i ==> core[j] == Engaged(pick, old(core[j]), engageByID, byID)
      invariant forall j :: i <= j < core.Length ==> core[j] == old(core[j])
    {
      var id := core[i].id;
      if id !in engageByID {
        continue;
      }
      var ex, item := engageByID[id], if id in byID then byID[id] else NO_ITEM;
      var r := core[i].(engagement := Reconcile(pick, ex.engagement, item));
      if ex.enrichment.companyType != "" || ex.enrichment.summary != "" {
        r := r.(enrichment := ex.enrichment);
      }
      core[i] := r;
    }
  }

  /** The engage pass leaves an outreach that carries no pilot signals wherever it answered without any. */
  lemma EngageForgetsSignals(
      pick: (string, seq<string>, string) -> string, r: Lead, engage: map<string, Lead>, items: map<string, Item>)
    requires forall id | id in engage :: engage[id].engagement.pilotSignals == []
    ensures var r' := Engaged(pick, r, engage, items);
            && SameVerdict(r', r)
            && (r'.engagement.pilotSignals == r.engagement.pilotSignals
                <==> (r.id !in engage || r.engagement.pilotSignals == []))
  {
  }

  function Flatten(chunks: seq<seq<Item>>): seq<Item> {
    if chunks == [] then [] else Flatten(chunks[..|chunks| - 1]) + chunks[|chunks| - 1]
  }

  /** Every chunk is full but the last, which holds what is left. */
  predicate Sized(chunks: seq<seq<Item>>, size: int) {
    forall k | 0 <= k < |chunks| :: if k < |chunks| - 1 then |chunks[k]| == size else 0 < |chunks[k]| <= size
  }

  datatype Options = Options(engage: bool, enrich: bool, chunkSize: int)

  /**
   * AnalyzeLeadBatchOpts: the core pass, then the engage pass over the High items in chunks.
   * `chunks` records the batches the engage pass covered and `answers` what it got for them.
   */
  method AnalyzeLeads(
    coreFn: (nat, seq<Item>) -> Outcome<Lead>, engageFn: (nat, seq<Item>) -> Outcome<Lead>,
    pick: (string, seq<string>, string) -> string, items: seq<Item>, opts: Options)
    returns (res: Outcome<Lead>, ghost chunks: seq<seq<Item>>, ghost answers: seq<seq<Lead>>)
    ensures var core := Bisect(coreFn, items, 0).outcome;
            && (!core.Ok? ==> res == core)
            && (core.Ok? && res.Ok? ==>
                  |res.out| == |core.out| && forall i :: 0 <= i < |core.out| ==> SameVerdict(res.out[i], core.out[i]))
            && (core.Ok? && !opts.engage && !opts.enrich ==> res == core)
    ensures var core := Bisect(coreFn, items, 0).outcome;
            && (!core.Ok? ==> chunks == [])
            && (core.Ok? && res.Ok? ==>
                  && res.out == EngagedAll(pick, core.out, answers, ById(items)) && Answered(engageFn, chunks, answers)
                  && Flatten(chunks) == (if opts.engage || opts.enrich then HighOnly(items) else []))
            && (core.Ok? && !res.Ok? ==>
                  (opts.engage || opts.enrich) && Stopped(engageFn, chunks, answers, HighOnly(items), res))
    ensures Sized(chunks, if opts.chunkSize <= 0 then 4 else opts.chunkSize)
  {
    chunks, answers := [], [];
    if |items| == 0 {
      assert HighOnly(items) == [];
      return Ok([]), [], [];
    }
    var first := Bisect(coreFn, items, 0);
    if !first.outcome.Ok? {
      return first.outcome, [], [];
    }
    EngagedNone(pick, first.outcome.out, ById(items));
    var core := new Lead[|first.outcome.out|](i requires 0 <= i < |first.outcome.out| => first.outcome.out[i]);
    assert core[..] == first.outcome.out;
    if !opts.engage && !opts.enrich {
      return Ok(core[..]), [], [];
    }
    var size := if opts.chunkSize <= 0 then 4 else opts.chunkSize;
    var failure;
    failure, chunks, answers := EngagePass(engageFn, pick, items, core, size);
    if failure != Ok([]) {
      return failure, chunks, answers;
    }
    res := Ok(core[..]);
    forall i | 0 <= i < |first.outcome.out|
      ensures SameVerdict(res.out[i], first.outcome.out[i])
    {
      EngageKeepsVerdict(pick, first.outcome.out[i], answers, ById(items));
    }
  }

  /** The chunk loop of AnalyzeLeadBatchOpts, writing into the core results. */
  method EngagePass(
    engageFn: (nat, seq<Item>) -> Outcome<Lead>, pick: (string, seq<string>, string) -> string,
    items: seq<Item>, core: array<Lead>, size: int)
    returns (failure: Outcome<Lead>, ghost chunks: seq<seq<Item>>, ghost answers: seq<seq<Lead>>)
    requires size > 0
    modifies core
    ensures failure != Ok([]) ==> Stopped(engageFn, chunks, answers, HighOnly(items), failure)
    ensures failure == Ok([]) ==> Flatten(chunks) == HighOnly(items) && Answered(engageFn, chunks, answers)
    ensures failure == Ok([]) ==> core[..] == EngagedAll(pick, old(core[..]), answers, ById(items))
    ensures Sized(chunks, size)
  {
    var high := FilterHigh(items);
    var byID := IndexItems(items);
    var i: int, calls: nat := 0, 0;
    chunks, answers := [], [];
    EngagedNone(pick, core[..], byID);
    while i < |high|
      invariant 0 <= i <= |high| && Flatten(chunks) == high[..i]
      invariant Sized(chunks, size) && (i < |high| ==> Full(chunks, size))
      invariant Answered(engageFn, chunks, answers) && calls == CallsOf(engageFn, chunks)
      invariant core[..] == EngagedAll(pick, old(core[..]), answers, byID)
    {
      var end := if i + size > |high| then |high| else i + size;
      var chunk := high[i..end];
      var t := Bisect(engageFn, chunk, calls);
      NextChunk(high, chunks, i, end, size);
      if !t.outcome.Ok? {
        StoppedAt(engageFn, chunks, answers, chunk, high);
        return t.outcome, chunks + [chunk], answers;
      }
      AnsweredSnoc(engageFn, chunks, answers, chunk);
      calls := calls + t.calls;
      ghost var before := core[..];
      MergeEngage(pick, core, t.outcome.out, byID);
      EngagedMore(pick, old(core[..]), answers, t.outcome.out, byID, before, core[..]);
      chunks, answers := chunks + [chunk], answers + [t.outcome.out];
      i := end;
    }
    assert high[..|high|] == high;
    failure := Ok([]);
  }

  /** The calls the engage analyser has had after the chunks. */
  function CallsOf(fn: (nat, seq<Item>) -> Outcome<Lead>, chunks: seq<seq<Item>>): nat {
    if chunks == [] then 0
    else
      var before := CallsOf(fn, chunks[..|chunks| - 1]);
      before + Bisect(fn, chunks[|chunks| - 1], before).calls
  }

  /** Each answer is what the engage analyser, bisecting as needed, gave for its chunk. */
  ghost predicate Answered(fn: (nat, seq<Item>) -> Outcome<Lead>, chunks: seq<seq<Item>>, answers: seq<seq<Lead>>) {
    |chunks| == |answers| && forall k | 0 <= k < |chunks| :: AnsweredOne(fn, chunks, k, Ok(answers[k]))
  }

  ghost predicate AnsweredOne(
      fn: (nat, seq<Item>) -> Outcome<Lead>, chunks: seq<seq<Item>>, k: nat, outcome: Outcome<Lead>)
    requires k < |chunks|
  {
    Bisect(fn, chunks[k], CallsOf(fn, chunks[..k])).outcome == outcome
  }

  /** The pass ended at its last chunk, the first one that failed, with that chunk's error. */
  ghost predicate Stopped(
      fn: (nat, seq<Item>) -> Outcome<Lead>, chunks: seq<seq<Item>>, answers: seq<seq<Lead>>, high: seq<Item>,
      failure: Outcome<Lead>) {
    && !failure.Ok? && chunks != [] && Flatten(chunks) <= high
    && Answered(fn, chunks[..|chunks| - 1], answers) && AnsweredOne(fn, chunks, |chunks| - 1, failure)
  }

  lemma AnsweredSnoc(
      fn: (nat, seq<Item>) -> Outcome<Lead>, chunks: seq<seq<Item>>, answers: seq<seq<Lead>>, chunk: seq<Item>)
    requires Answered(fn, chunks, answers) && Bisect(fn, chunk, CallsOf(fn, chunks)).outcome.Ok?
    ensures var t := Bisect(fn, chunk, CallsOf(fn, chunks));
            && Answered(fn, chunks + [chunk], answers + [t.outcome.out])
            && CallsOf(fn, chunks + [chunk]) == CallsOf(fn, chunks) + t.calls
  {
    var after, out := chunks + [chunk], Bisect(fn, chunk, CallsOf(fn, chunks)).outcome.out;
    assert after[..|chunks|] == chunks;
    forall k | 0 <= k < |after| ensures AnsweredOne(fn, after, k, Ok((answers + [out])[k])) {
      if k < |chunks| {
        assert AnsweredOne(fn, chunks, k, Ok(answers[k])) && after[..k] == chunks[..k];
      }
    }
  }

  lemma StoppedAt(
      fn: (nat, seq<Item>) -> Outcome<Lead>, chunks: seq<seq<Item>>, answers: seq<seq<Lead>>, chunk: seq<Item>,
      high: seq<Item>)
    requires Answered(fn, chunks, answers) && !Bisect(fn, chunk, CallsOf(fn, chunks)).outcome.Ok?
    requires Flatten(chunks + [chunk]) <= high
    ensures Stopped(fn, chunks + [chunk], answers, high, Bisect(fn, chunk, CallsOf(fn, chunks)).outcome)
  {
    assert (chunks + [chunk])[..|chunks|] == chunks;
  }

  /** One result after the answers of all chunks. */
  function EngagedBy(
      pick: (string, seq<string>, string) -> string, r: Lead, answers: seq<seq<Lead>>,
      items: map<string, Item>): Lead {
    if answers == [] then r
    else Engaged(pick, EngagedBy(pick, r, answers[..|answers| - 1], items), LeadById(answers[|answers| - 1]), items)
  }

  function EngagedAll(
      pick: (string, seq<string>, string) -> string, core: seq<Lead>, answers: seq<seq<Lead>>,
      items: map<string, Item>): (r: seq<Lead>)
    ensures |r| == |core|
  {
    seq(|core|, i requires 0 <= i < |core| => EngagedBy(pick, core[i], answers, items))
  }

  lemma EngagedNone(pick: (string, seq<string>, string) -> string, core: seq<Lead>, items: map<string, Item>)
    ensures EngagedAll(pick, core, [], items) == core
  {
  }

  lemma EngagedMore(
      pick: (string, seq<string>, string) -> string, core: seq<Lead>, answers: seq<seq<Lead>>, answer: seq<Lead>,
      items: map<string, Item>, before: seq<Lead>, after: seq<Lead>)
    requires before == EngagedAll(pick, core, answers, items) && |after| == |before|
    requires forall i :: 0 <= i < |after| ==> after[i] == Engaged(pick, before[i], LeadById(answer), items)
    ensures after == EngagedAll(pick, core, answers + [answer], items)
  {
    assert (answers + [answer])[..|answers|] == answers;
  }

  /** The engage pass never touches geo, ICP or pilot verdicts. */
  lemma {:induction false} EngageKeepsVerdict(
      pick: (string, seq<string>, string) -> string, r: Lead, answers: seq<seq<Lead>>, items: map<string, Item>)
    ensures SameVerdict(EngagedBy(pick, r, answers, items), r)
  {
    if answers != [] {
      EngageKeepsVerdict(pick, r, answers[..|answers| - 1], items);
    }
  }

  /** A result named by one answer only takes its outreach from it, wherever it comes; named by none, it stays. */
  lemma {:induction false} EngagedOnce(
      pick: (string, seq<string>, string) -> string, r: Lead, answers: seq<seq<Lead>>, items: map<string, Item>,
      k: nat)
    requires forall i | 0 <= i < |answers| && i != k :: r.id !in LeadById(answers[i])
    ensures EngagedBy(pick, r, answers, items) ==
            if k < |answers| then Engaged(pick, r, LeadById(answers[k]), items) else r
  {
    if answers != [] {
      var n := |answers| - 1;
      EngagedOnce(pick, r, answers[..n], items, if k < n then k else n);
      EngageKeepsVerdict(pick, r, answers[..n], items);
      assert k < n ==> answers[..n][k] == answers[k];
    }
  }

  predicate Full(chunks: seq<seq<Item>>, size: int) {
    forall k | 0 <= k < |chunks| :: |chunks[k]| == size
  }

  lemma NextChunk(high: seq<Item>, chunks: seq<seq<Item>>, i: nat, end: nat, size: int)
    requires i < end <= |high| && end == (if i + size > |high| then |high| else i + size)
    requires Flatten(chunks) == high[..i] && Full(chunks, size)
    ensures Flatten(chunks + [high[i..end]]) == high[..end] && Sized(chunks + [high[i..end]], size)
    ensures end < |high| ==> Full(chunks + [high[i..end]], size)
  {
    assert (chunks + [high[i..end]])[..|chunks|] == chunks;
    assert high[..i] + high[i..end] == high[..end];
  }
}
