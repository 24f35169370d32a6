/** Folding suggested queries into the discover configuration, all at once or in quota-sized steps. */
module Discover {
  import opened Text
  import opened Lists

  datatype Config = Config(telegram: seq<string>, serp: seq<string>)

  /** pending.go's UniqueFolded; `fold` is the comparison key, the lower-cased string in the code. */
  function UniqueFolded(fold: string -> string, base: seq<string>, extra: seq<string>): seq<string> {
    Scan(fold, {}, base + extra)
  }

  /** auto_apply.go's NewDiscoverAdditions, for one of the two lists. */
  function Additions(fold: string -> string, base: seq<string>, proposed: seq<string>): seq<string> {
    Scan(fold, Known(fold, {}, base), proposed)
  }

  function MergeSuggestions(fold: string -> string, c: Config, telegram: seq<string>, serp: seq<string>): Config {
    Config(UniqueFolded(fold, c.telegram, telegram), UniqueFolded(fold, c.serp, serp))
  }

  method UniqueFoldedLoop(fold: string -> string, base: seq<string>, extra: seq<string>) returns (out: seq<string>)
    ensures out == UniqueFolded(fold, base, extra)
  {
    var first, seen := ScanLoop(fold, {}, base);
    var second;
    second, seen := ScanLoop(fold, seen, extra);
    out := first + second;
    ScanConcat(fold, {}, base, extra);
  }

  method NewAdditions(fold: string -> string, c: Config, telegram: seq<string>, serp: seq<string>)
    returns (newTelegram: seq<string>, newSerp: seq<string>)
    ensures newTelegram == Additions(fold, c.telegram, telegram) && newSerp == Additions(fold, c.serp, serp)
  {
    var ignored, seen := ScanLoop(fold, {}, c.telegram);
    newTelegram, seen := ScanLoop(fold, seen, telegram);
    ignored, seen := ScanLoop(fold, {}, c.serp);
    newSerp, seen := ScanLoop(fold, seen, serp);
  }

  /** How many of n the quota still covers. */
  function Covered(n: nat, quota: int): nat {
    if quota <= 0 then 0 else if quota < n then quota else n
  }

  /** TrimDiscoverQuota: telegram first, then serp, each a prefix; the rest is deferred in order. */
  method TrimQuota(telegram: seq<string>, serp: seq<string>, quota: int)
    returns (keepTelegram: seq<string>, keepSerp: seq<string>, deferred: seq<string>)
    ensures var t := Covered(|telegram|, quota);
            var s := Covered(|serp|, quota - t);
            && keepTelegram == telegram[..t] && keepSerp == serp[..s] && deferred == telegram[t..] + serp[s..]
    ensures |keepTelegram| + |keepSerp| <= if quota <= 0 then 0 else quota
    ensures quota <= 0 ==> keepTelegram == [] && keepSerp == []
    ensures quota > 0 ==> |keepTelegram| == if |telegram| <= quota then |telegram| else quota
    ensures quota > 0 ==>
              var left := quota - |keepTelegram|;
              |keepSerp| == if |serp| <= left then |serp| else left
    ensures |keepTelegram| + |keepSerp| + |deferred| == |telegram| + |serp|
  {
    if quota <= 0 {
      return [], [], telegram + serp;
    }
    var left := quota;
    keepTelegram, keepSerp, deferred := [], [], [];
    for i := 0 to |telegram|
      invariant var t := Covered(i, quota);
                left == quota - t && keepTelegram == telegram[..t] && deferred == telegram[t..i]
    {
      if left == 0 {
        deferred := deferred + [telegram[i]];
        continue;
      }
      keepTelegram := keepTelegram + [telegram[i]];
      left := left - 1;
    }
    ghost var t := Covered(|telegram|, quota);
    assert telegram[t..|telegram|] == telegram[t..];
    for i := 0 to |serp|
      invariant var s := Covered(i, quota - t);
                left == quota - t - s && keepSerp == serp[..s] && deferred == telegram[t..] + serp[s..i]
    {
      if left == 0 {
        deferred := deferred + [serp[i]];
        continue;
      }
      keepSerp := keepSerp + [serp[i]];
      left := left - 1;
    }
  }

  // ---------------------------------------------------------------- laws of folding

  /** The entry at i is the first one, and not seen before, with its key. */
  predicate FirstOfKey(fold: string -> string, seen: set<string>, xs: seq<string>, i: nat) {
    && i < |xs| && Trim(xs[i]) != "" && fold(Trim(xs[i])) !in seen
    && forall j | 0 <= j < i :: Trim(xs[j]) == "" || fold(Trim(xs[j])) != fold(Trim(xs[i]))
  }

  ghost predicate FirstEntry(fold: string -> string, seen: set<string>, xs: seq<string>, v: string) {
    exists i: nat :: FirstOfKey(fold, seen, xs, i) && Trim(xs[i]) == v
  }

  /** A folded scan returns, trimmed and under distinct keys, exactly the first entry of each new key. */
  lemma {:induction false} FoldedMeaning(fold: string -> string, seen: set<string>, xs: seq<string>)
    ensures forall v :: v in Scan(fold, seen, xs) <==> FirstEntry(fold, seen, xs, v)
    ensures DistinctKeys(fold, seen, Scan(fold, seen, xs))
  {
    FoldedDistinct(fold, seen, xs);
    if xs != [] {
      FoldedMeaning(fold, seen, xs[..|xs| - 1]);
      forall v ensures v in Scan(fold, seen, xs) <==> FirstEntry(fold, seen, xs, v) {
        FoldedStep(fold, seen, xs, v);
      }
    }
  }

  predicate DistinctKeys(fold: string -> string, seen: set<string>, out: seq<string>) {
    && (forall a | 0 <= a < |out| :: fold(out[a]) !in seen)
    && forall a, b | 0 <= a < b < |out| :: fold(out[a]) != fold(out[b])
  }

  lemma {:induction false} FoldedDistinct(fold: string -> string, seen: set<string>, xs: seq<string>)
    ensures DistinctKeys(fold, seen, Scan(fold, seen, xs))
    decreases |xs|
  {
    if xs != [] {
      var v := Trim(xs[0]);
      if v == "" || fold(v) in seen {
        FoldedDistinct(fold, seen, xs[1..]);
      } else {
        FoldedDistinct(fold, seen + {fold(v)}, xs[1..]);
      }
    }
  }

  lemma FoldedStep(fold: string -> string, seen: set<string>, xs: seq<string>, v: string)
    requires xs != []
    requires v in Scan(fold, seen, xs[..|xs| - 1]) <==> FirstEntry(fold, seen, xs[..|xs| - 1], v)
    ensures v in Scan(fold, seen, xs) <==> FirstEntry(fold, seen, xs, v)
  {
    var before, x := xs[..|xs| - 1], xs[|xs| - 1];
    assert xs == before + [x];
    ScanIn(fold, seen, before, x, v);
    KeyNew(fold, seen, before, x);
    FirstEntrySnoc(fold, seen, before, x, v);
  }

  lemma ScanIn(fold: string -> string, seen: set<string>, before: seq<string>, x: string, v: string)
    ensures v in Scan(fold, seen, before + [x]) <==>
            v in Scan(fold, seen, before)
            || (v == Trim(x) != "" && fold(Trim(x)) !in Known(fold, seen, before))
  {
    ScanSnoc(fold, seen, before, x);
  }

  lemma FirstEntrySnoc(fold: string -> string, seen: set<string>, before: seq<string>, x: string, v: string)
    ensures FirstEntry(fold, seen, before + [x], v) <==>
            FirstEntry(fold, seen, before, v) || (Trim(x) == v && FirstOfKey(fold, seen, before + [x], |before|))
  {
    var xs := before + [x];
    if FirstEntry(fold, seen, before, v) {
      var i: nat :| FirstOfKey(fold, seen, before, i) && Trim(before[i]) == v;
      FirstStays(fold, seen, before, x, i);
    }
    if FirstEntry(fold, seen, xs, v) {
      var i: nat :| FirstOfKey(fold, seen, xs, i) && Trim(xs[i]) == v;
      if i < |before| {
        FirstStays(fold, seen, before, x, i);
      }
    }
  }

  lemma FirstStays(fold: string -> string, seen: set<string>, before: seq<string>, x: string, i: nat)
    requires i < |before|
    ensures (before + [x])[i] == before[i]
    ensures FirstOfKey(fold, seen, before + [x], i) <==> FirstOfKey(fold, seen, before, i)
  {
    forall j | 0 <= j < |before| ensures (before + [x])[j] == before[j] {}
  }

  lemma KeyNew(fold: string -> string, seen: set<string>, before: seq<string>, x: string)
    ensures FirstOfKey(fold, seen, before + [x], |before|) <==>
            Trim(x) != "" && fold(Trim(x)) !in Known(fold, seen, before)
  {
    var xs := before + [x];
    forall j | 0 <= j < |before| ensures xs[j] == before[j] && before[j] in before {}
    if Trim(x) != "" && fold(Trim(x)) !in seen && fold(Trim(x)) in Known(fold, seen, before) {
      var y :| y in before && Trim(y) != "" && fold(Trim(y)) == fold(Trim(x));
      var j :| 0 <= j < |before| && before[j] == y;
      assert xs[j] == y;
    }
  }

  lemma KnownConcat(fold: string -> string, seen: set<string>, xs: seq<string>, ys: seq<string>)
    ensures Known(fold, seen, xs + ys) == Known(fold, Known(fold, seen, xs), ys)
  {
    assert forall x :: x in xs + ys <==> x in xs || x in ys;
  }

  /** A scan loses no key. */
  lemma {:induction false} ScanKnown(fold: string -> string, seen: set<string>, xs: seq<string>)
    ensures Known(fold, seen, Scan(fold, seen, xs)) == Known(fold, seen, xs)
    decreases |xs|
  {
    if xs != [] {
      var v, rest := Trim(xs[0]), xs[1..];
      assert xs == [xs[0]] + rest;
      KnownConcat(fold, seen, [xs[0]], rest);
      KnownOne(fold, seen, xs[0]);
      if v == "" || fold(v) in seen {
        assert Known(fold, seen, [xs[0]]) == seen;
        ScanKnown(fold, seen, rest);
      } else {
        KnownOne(fold, seen, v);
        KnownConcat(fold, seen, [v], Scan(fold, seen + {fold(v)}, rest));
        ScanKnown(fold, seen + {fold(v)}, rest);
      }
    } else {
      assert Scan(fold, seen, xs) == xs;
    }
  }

  lemma KnownOne(fold: string -> string, seen: set<string>, x: string)
    ensures Known(fold, seen, [x]) == if Trim(x) == "" then seen else seen + {fold(Trim(x))}
  {
    KnownSnoc(fold, seen, [], x);
    assert [] + [x] == [x];
    assert Known(fold, seen, []) == seen;
  }

  /** Scanning again what a scan returned changes nothing. */
  lemma {:induction false} ScanTwice(fold: string -> string, seen: set<string>, xs: seq<string>)
    ensures Scan(fold, seen, Scan(fold, seen, xs)) == Scan(fold, seen, xs)
    decreases |xs|
  {
    if xs != [] {
      var v, rest := Trim(xs[0]), xs[1..];
      if v == "" || fold(v) in seen {
        ScanTwice(fold, seen, rest);
      } else {
        var tail := Scan(fold, seen + {fold(v)}, rest);
        ScanTwice(fold, seen + {fold(v)}, rest);
        assert ([v] + tail)[1..] == tail;
      }
    }
  }

  /** Nothing known is added. */
  lemma {:induction false} ScanNothingNew(fold: string -> string, seen: set<string>, xs: seq<string>)
    requires forall x | x in xs :: Trim(x) == "" || fold(Trim(x)) in seen
    ensures Scan(fold, seen, xs) == []
    decreases |xs|
  {
    if xs != [] {
      assert xs[0] in xs;
      ScanNothingNew(fold, seen, xs[1..]);
    }
  }

  /** The merged list is the cleaned base followed by exactly the additions. */
  lemma FoldedIsBaseThenAdditions(fold: string -> string, base: seq<string>, extra: seq<string>)
    ensures UniqueFolded(fold, base, extra) == UniqueFolded(fold, base, []) + Additions(fold, base, extra)
  {
    ScanConcat(fold, {}, base, extra);
    assert base + [] == base;
  }

  /** Merging x and then y is merging both at once. */
  lemma MergeInSteps(fold: string -> string, base: seq<string>, x: seq<string>, y: seq<string>)
    ensures UniqueFolded(fold, UniqueFolded(fold, base, x), y) == UniqueFolded(fold, base, x + y)
  {
    ScanAgain(fold, base + x, y);
    Associative(base, x, y);
  }

  lemma Associative(x: seq<string>, y: seq<string>, z: seq<string>)
    ensures x + y + z == x + (y + z)
  {
  }

  /** A scanned list scans on like the list itself. */
  lemma ScanAgain(fold: string -> string, xs: seq<string>, y: seq<string>)
    ensures Scan(fold, {}, Scan(fold, {}, xs) + y) == Scan(fold, {}, xs + y)
  {
    ScanConcat(fold, {}, Scan(fold, {}, xs), y);
    ScanTwice(fold, {}, xs);
    ScanKnown(fold, {}, xs);
    ScanConcat(fold, {}, xs, y);
  }

  /** Merging the same again changes nothing. */
  lemma MergeIdempotent(fold: string -> string, base: seq<string>, x: seq<string>)
    ensures UniqueFolded(fold, UniqueFolded(fold, base, x), x) == UniqueFolded(fold, base, x)
  {
    ScanAgain(fold, base + x, x);
    ScanConcat(fold, {}, base + x, x);
    OwnPartKnown(fold, base, x);
    ScanNothingNew(fold, Known(fold, {}, base + x), x);
  }

  lemma OwnPartKnown(fold: string -> string, base: seq<string>, x: seq<string>)
    ensures forall e | e in x :: Trim(e) == "" || fold(Trim(e)) in Known(fold, {}, base + x)
  {
    forall e | e in x ensures e in base + x {}
  }

  /** Merging the additions is merging the proposals. */
  lemma AdditionsSuffice(fold: string -> string, base: seq<string>, proposed: seq<string>)
    ensures UniqueFolded(fold, base, Additions(fold, base, proposed)) == UniqueFolded(fold, base, proposed)
  {
    ScanConcat(fold, {}, base, Additions(fold, base, proposed));
    ScanConcat(fold, {}, base, proposed);
    ScanTwice(fold, Known(fold, {}, base), proposed);
  }

  /**
   * Auto-apply in steps: the part of the new suggestions a quota covers now and the rest later
   * give the configuration that merging all proposals at once gives, whatever the quota.
   */
  lemma QuotaStepsLoseNothing(fold: string -> string, c: Config, telegram: seq<string>, serp: seq<string>, quota: int)
    ensures var newT, newS := Additions(fold, c.telegram, telegram), Additions(fold, c.serp, serp);
            var t := Covered(|newT|, quota);
            var s := Covered(|newS|, quota - t);
            MergeSuggestions(fold, MergeSuggestions(fold, c, newT[..t], newS[..s]), newT[t..], newS[s..])
            == MergeSuggestions(fold, c, telegram, serp)
  {
    var newT, newS := Additions(fold, c.telegram, telegram), Additions(fold, c.serp, serp);
    var t := Covered(|newT|, quota);
    var s := Covered(|newS|, quota - t);
    AnyPrefixFirst(fold, c.telegram, telegram, t);
    AnyPrefixFirst(fold, c.serp, serp, s);
  }

  lemma AnyPrefixFirst(fold: string -> string, base: seq<string>, proposed: seq<string>, n: nat)
    requires n <= |Additions(fold, base, proposed)|
    ensures var new_ := Additions(fold, base, proposed);
            UniqueFolded(fold, UniqueFolded(fold, base, new_[..n]), new_[n..]) == UniqueFolded(fold, base, proposed)
  {
    var new_ := Additions(fold, base, proposed);
    MergeInSteps(fold, base, new_[..n], new_[n..]);
    assert new_[..n] + new_[n..] == new_;
    AdditionsSuffice(fold, base, proposed);
  }
}
