/**
 * The order-preserving, trimming, duplicate-dropping list builders:
 * `uniqStrings` and `unionStrings` of the entity package and `UniqueFolded` of
 * the discover package are one scan that differs only in the key it compares.
 */
module Lists {
  import opened Text

  /** The comparison key of the entity package: the string itself. */
  function Same(s: string): string {
    s
  }

  function Elems(xs: seq<string>): set<string> {
    set x | x in xs
  }

  predicate NoDup(xs: seq<string>) {
    forall i, j :: 0 <= i < j < |xs| ==> xs[i] != xs[j]
  }

  /** What a list contributes to a set of labels: its non-blank entries, trimmed. */
  function Labels(xs: seq<string>): set<string> {
    (set x | x in xs :: Trim(x)) - {""}
  }

  /** The shape of every list the entity package stores. */
  predicate Normal(xs: seq<string>) {
    NoDup(xs) && forall x | x in xs :: x != "" && Trimmed(x)
  }

  /** One scan: keep the trimmed entries whose key is new. */
  function Scan(fold: string -> string, seen: set<string>, xs: seq<string>): seq<string>
    decreases |xs|
  {
    if xs == [] then []
    else
      var v := Trim(xs[0]);
      if v == "" || fold(v) in seen then Scan(fold, seen, xs[1..])
      else [v] + Scan(fold, seen + {fold(v)}, xs[1..])
  }

  /** The keys known after the scan. */
  function Known(fold: string -> string, seen: set<string>, xs: seq<string>): set<string> {
    seen + set x | x in xs && Trim(x) != "" :: fold(Trim(x))
  }

  function Uniq(xs: seq<string>): seq<string> {
    Scan(Same, {}, xs)
  }

  function Union(base: seq<string>, add: seq<string>): seq<string> {
    if add == [] then base else Scan(Same, {}, base + add)
  }

  /** The scan of a concatenation is the two scans, the second one knowing the first one's keys. */
  lemma {:induction false} ScanConcat(fold: string -> string, seen: set<string>, xs: seq<string>, ys: seq<string>)
    ensures Scan(fold, seen, xs + ys) == Scan(fold, seen, xs) + Scan(fold, Known(fold, seen, xs), ys)
    decreases |xs|
  {
    if xs == [] {
      assert xs + ys == ys;
      assert Known(fold, seen, xs) == seen;
    } else {
      assert (xs + ys)[1..] == xs[1..] + ys;
      var v := Trim(xs[0]);
      var seen' := if v == "" then seen else seen + {fold(v)};
      assert Known(fold, seen, xs) == Known(fold, seen', xs[1..]) by {
        assert xs == [xs[0]] + xs[1..];
      }
      if v == "" || fold(v) in seen {
        assert seen' == seen;
        ScanConcat(fold, seen, xs[1..], ys);
      } else {
        ScanConcat(fold, seen', xs[1..], ys);
      }
    }
  }

  lemma KnownSnoc(fold: string -> string, seen: set<string>, xs: seq<string>, x: string)
    ensures Known(fold, seen, xs + [x]) ==
            if Trim(x) == "" then Known(fold, seen, xs) else Known(fold, seen, xs) + {fold(Trim(x))}
  {
  }

  lemma ScanSnoc(fold: string -> string, seen: set<string>, xs: seq<string>, x: string)
    ensures var v, known := Trim(x), Known(fold, seen, xs);
            Scan(fold, seen, xs + [x]) == Scan(fold, seen, xs) + if v == "" || fold(v) in known then [] else [v]
  {
    ScanConcat(fold, seen, xs, [x]);
    ScanOne(fold, Known(fold, seen, xs), x);
  }

  lemma ScanOne(fold: string -> string, seen: set<string>, x: string)
    ensures Scan(fold, seen, [x]) == if Trim(x) == "" || fold(Trim(x)) in seen then [] else [Trim(x)]
  {
    var none: seq<string> := [];
    assert [x][1..] == none;
    assert Scan(fold, seen + {fold(Trim(x))}, none) == none;
  }

  /** The loop shared by uniqStrings, unionStrings and UniqueFolded. */
  method ScanLoop(
      fold: string -> string, seen0: set<string>, xs: seq<string>) returns (out: seq<string>, seen: set<string>)
    ensures out == Scan(fold, seen0, xs)
    ensures seen == Known(fold, seen0, xs)
  {
    out, seen := [], seen0;
    for i := 0 to |xs|
      invariant out == Scan(fold, seen0, xs[..i])
      invariant seen == Known(fold, seen0, xs[..i])
    {
      var v := Trim(xs[i]);
      assert xs[..i + 1] == xs[..i] + [xs[i]];
      ScanSnoc(fold, seen0, xs[..i], xs[i]);
      KnownSnoc(fold, seen0, xs[..i], xs[i]);
      if v == "" || fold(v) in seen {
        continue;
      }
      seen := seen + {fold(v)};
      out := out + [v];
    }
    assert xs[..|xs|] == xs;
  }

  /** merge.go's uniqStrings */
  method UniqStrings(xs: seq<string>) returns (out: seq<string>)
    ensures out == Uniq(xs)
  {
    var seen;
    out, seen := ScanLoop(Same, {}, xs);
  }

  /** merge.go's unionStrings: the second loop goes on with the first one's seen map. */
  method UnionStrings(base: seq<string>, add: seq<string>) returns (out: seq<string>)
    ensures out == Union(base, add)
  {
    if |add| == 0 {
      return base;
    }
    var first, seen := ScanLoop(Same, {}, base);
    var second;
    second, seen := ScanLoop(Same, seen, add);
    out := first + second;
    ScanConcat(Same, {}, base, add);
  }

  /** What a scan returns: each new label once, in list shape. */
  lemma {:induction false} ScanMeaning(seen: set<string>, xs: seq<string>)
    ensures Elems(Scan(Same, seen, xs)) == Labels(xs) - seen
    ensures Normal(Scan(Same, seen, xs))
    decreases |xs|
  {
    if xs != [] {
      var v := Trim(xs[0]);
      assert xs == [xs[0]] + xs[1..];
      assert Labels(xs) == Labels(xs[1..]) + ({v} - {""});
      if v == "" || v in seen {
        ScanMeaning(seen, xs[1..]);
      } else {
        var rest := Scan(Same, seen + {v}, xs[1..]);
        ScanMeaning(seen + {v}, xs[1..]);
        assert v !in Elems(rest);
        assert Elems([v] + rest) == {v} + Elems(rest);
      }
    }
  }

  lemma UniqMeaning(xs: seq<string>)
    ensures Elems(Uniq(xs)) == Labels(xs)
    ensures Normal(Uniq(xs))
  {
    ScanMeaning({}, xs);
  }

  lemma NormalLabels(xs: seq<string>)
    requires Normal(xs)
    ensures Labels(xs) == Elems(xs)
  {
    forall x | x in xs
      ensures x in Labels(xs)
    {
      assert Trim(x) == x;
    }
  }

  /** unionStrings on a stored list is set union and keeps the stored shape. */
  lemma UnionMeaning(base: seq<string>, add: seq<string>)
    requires Normal(base)
    ensures Normal(Union(base, add))
    ensures Elems(Union(base, add)) == Elems(base) + Labels(add)
  {
    NormalLabels(base);
    if add != [] {
      ScanMeaning({}, base + add);
      assert Labels(base + add) == Labels(base) + Labels(add);
    }
  }

  lemma {:induction false} NoDupSize(xs: seq<string>)
    requires NoDup(xs)
    ensures |Elems(xs)| == |xs|
  {
    if xs != [] {
      NoDupSize(xs[1..]);
      assert Elems(xs) == {xs[0]} + Elems(xs[1..]) by {
        assert xs == [xs[0]] + xs[1..];
      }
    }
  }

  /** A one-element list contributes its trimmed element. */
  lemma LabelsOne(x: string)
    ensures Labels([x]) == {Trim(x)} - {""}
  {
    assert (set y | y in [x] :: Trim(y)) == {Trim(x)} by {
      assert x in [x];
    }
  }
}
