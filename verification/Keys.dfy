/** Identity keys: priority order, deduplication, the in-place sort and the ids derived from them. */
module Keys {
  import opened Text
  import opened Entity
  import opened ExchangeSort

  /** keyPriority; a kind the table does not list reads as 0. */
  function Priority(kind: string): nat {
    if kind == "company" then 0
    else if kind == "domain" then 1
    else if kind == "forum_uid" then 2
    else if kind == "forum_user" then 3
    else if kind == "telegram_user_id" then 3
    else if kind == "telegram" then 4
    else if kind == "channel" then 5
    else 0
  }

  predicate KnownKind(kind: string) {
    kind in {"company", "domain", "forum_uid", "forum_user", "telegram_user_id", "telegram", "channel"}
  }

  predicate KeyLess(a: Key, b: Key) {
    var p, q := Priority(a.kind), Priority(b.kind);
    if p != q then p < q else Less(a.value, b.value)
  }

  /** Neither key comes before the other. */
  predicate Tied(a: Key, b: Key) {
    Priority(a.kind) == Priority(b.kind) && a.value == b.value
  }

  lemma KeyLessOrder(a: Key, b: Key)
    ensures KeyLess(a, b) || KeyLess(b, a) || Tied(a, b)
    ensures KeyLess(a, b) ==> !KeyLess(b, a) && !Tied(a, b)
  {
    LessTotal(a.value, b.value);
    LessIrreflexive(a.value);
    if Less(a.value, b.value) {
      LessAsymmetric(a.value, b.value);
    }
  }

  /** "Not after" is transitive. */
  lemma NotAfterTransitive(a: Key, b: Key, c: Key)
    requires !KeyLess(b, a) && !KeyLess(c, b)
    ensures !KeyLess(c, a)
  {
    LessTotal(a.value, b.value);
    LessTotal(b.value, c.value);
    if KeyLess(c, a) && Priority(a.kind) == Priority(b.kind) == Priority(c.kind) {
      if Less(a.value, b.value) {
        LessTransitive(c.value, a.value, b.value);
      }
    }
  }

  // ---------------------------------------------------------------- deduplication

  predicate Useful(k: Key) {
    k.kind != "" && k.value != ""
  }

  /** dedupeKeys from a given seen set. */
  function Dedupe(seen: set<string>, ks: seq<Key>): seq<Key>
    decreases |ks|
  {
    if ks == [] then []
    else if !Useful(ks[0]) || ks[0].Canonical() in seen then Dedupe(seen, ks[1..])
    else [ks[0]] + Dedupe(seen + {ks[0].Canonical()}, ks[1..])
  }

  method DedupeKeys(ks: seq<Key>) returns (out: seq<Key>)
    ensures out == Dedupe({}, ks)
  {
    out := [];
    var seen: set<string> := {};
    for i := 0 to |ks|
      invariant out + Dedupe(seen, ks[i..]) == Dedupe({}, ks)
    {
      assert ks[i..][1..] == ks[i + 1..];
      if ks[i].kind == "" || ks[i].value == "" || ks[i].Canonical() in seen {
        continue;
      }
      seen := seen + {ks[i].Canonical()};
      out := out + [ks[i]];
    }
  }

  predicate KnownKinds(ks: seq<Key>) {
    forall k | k in ks :: KnownKind(k.kind)
  }

  lemma FirstColon(kind: string, value: string)
    requires ':' !in kind
    ensures IndexOf(kind + ":" + value, ':') == |kind|
  {
    var s, i := kind + ":" + value, IndexOf(kind + ":" + value, ':');
    assert s[|kind|] == ':' && forall j | 0 <= j < |kind| :: s[j] == kind[j] && s[j] != ':';
    assert 0 <= i;
  }

  /** The canonical token determines a key of a known kind. */
  lemma CanonicalInjective(a: Key, b: Key)
    requires KnownKind(a.kind) && KnownKind(b.kind) && a.Canonical() == b.Canonical()
    ensures a == b
  {
    NoColon(a.kind);
    NoColon(b.kind);
    FirstColon(a.kind, a.value);
    FirstColon(b.kind, b.value);
    KindAndValue(a);
    KindAndValue(b);
  }

  lemma NoColon(kind: string)
    requires KnownKind(kind)
    ensures ':' !in kind
  {
  }

  lemma KindAndValue(k: Key)
    ensures k.kind == k.Canonical()[..|k.kind|] && k.value == k.Canonical()[|k.kind| + 1..]
  {
  }

  function KeySet(ks: seq<Key>): set<Key> {
    set k | k in ks
  }

  function UsefulSet(ks: seq<Key>): set<Key> {
    set k | k in ks && Useful(k)
  }

  function Tokens(ks: set<Key>): set<string> {
    set k | k in ks :: k.Canonical()
  }

  lemma {:induction false} DedupeMeaning(seen: set<Key>, ks: seq<Key>)
    requires KnownKinds(ks) && forall k | k in seen :: KnownKind(k.kind)
    ensures KeySet(Dedupe(Tokens(seen), ks)) == UsefulSet(ks) - seen
    ensures var out := Dedupe(Tokens(seen), ks); forall i, j :: 0 <= i < j < |out| ==> out[i] != out[j]
    decreases |ks|
  {
    if ks != [] {
      var k, rest := ks[0], ks[1..];
      assert ks == [k] + rest;
      assert UsefulSet(ks) == UsefulSet(rest) + if Useful(k) then {k} else {};
      if k.Canonical() in Tokens(seen) {
        var q :| q in seen && q.Canonical() == k.Canonical();
        CanonicalInjective(k, q);
      }
      if !Useful(k) || k.Canonical() in Tokens(seen) {
        DedupeMeaning(seen, rest);
      } else {
        assert Tokens(seen + {k}) == Tokens(seen) + {k.Canonical()};
        DedupeMeaning(seen + {k}, rest);
        var tail := Dedupe(Tokens(seen + {k}), rest);
        assert KeySet([k] + tail) == {k} + KeySet(tail);
        assert k !in KeySet(tail);
        assert k in seen ==> k.Canonical() in Tokens(seen);
      }
    }
  }

  // ---------------------------------------------------------------- the exchange sort

  /** sortKeys, in place. */
  method SortKeys(a: array<Key>)
    modifies a
    ensures a[..] == SortedKeys(old(a[..]))
  {
    SortInPlace(KeyLess, a);
  }

  function SortedKeys(ks: seq<Key>): seq<Key> {
    Rounds(KeyLess, ks, |ks|)
  }

  lemma KeyLessOrders()
    ensures Ordering(KeyLess)
  {
    forall a, b ensures KeyLess(a, b) ==> !KeyLess(b, a) {
      KeyLessOrder(a, b);
    }
    forall a, b, c ensures !KeyLess(b, a) && !KeyLess(c, b) ==> !KeyLess(c, a) {
      if !KeyLess(b, a) && !KeyLess(c, b) {
        NotAfterTransitive(a, b, c);
      }
    }
  }

  /** sortKeys yields a sorted permutation: no key comes before a stronger one. */
  lemma SortKeysSorts(ks: seq<Key>)
    ensures multiset(SortedKeys(ks)) == multiset(ks) && Sorted(KeyLess, SortedKeys(ks))
  {
    KeyLessOrders();
    RoundsSort(KeyLess, ks);
  }

  // ---------------------------------------------------------------- resolution is canonical

  /** The tail of ResolveKeys: deduplicate, then sort strongest first. */
  function Resolve(ks: seq<Key>): seq<Key> {
    SortedKeys(Dedupe({}, ks))
  }

  ghost predicate TieFree(ks: seq<Key>) {
    forall a, b | a in UsefulSet(ks) && b in UsefulSet(ks) && Tied(a, b) :: a == b
  }

  lemma DedupeAll(ks: seq<Key>)
    requires KnownKinds(ks)
    ensures KeySet(Dedupe({}, ks)) == UsefulSet(ks)
    ensures forall i, j :: 0 <= i < j < |Dedupe({}, ks)| ==> Dedupe({}, ks)[i] != Dedupe({}, ks)[j]
  {
    assert Tokens({}) == {};
    DedupeMeaning({}, ks);
  }

  /** Resolution returns each useful key once, no key before a stronger one. */
  lemma ResolveMeaning(ks: seq<Key>)
    requires KnownKinds(ks)
    ensures Sorted(KeyLess, Resolve(ks)) && KeySet(Resolve(ks)) == UsefulSet(ks)
    ensures multiset(Resolve(ks)) == multiset(UsefulSet(ks))
  {
    var d := Dedupe({}, ks);
    DedupeAll(ks);
    SortKeysSorts(d);
    OnceEach(d);
    forall k ensures k in Resolve(ks) <==> k in UsefulSet(ks) {
      assert k in multiset(Resolve(ks)) <==> k in multiset(d);
      assert k in multiset(d) <==> k in d;
      assert k in KeySet(d) <==> k in d;
    }
  }

  lemma {:induction false} OnceEach(ks: seq<Key>)
    requires forall i, j :: 0 <= i < j < |ks| ==> ks[i] != ks[j]
    ensures multiset(ks) == multiset(KeySet(ks))
  {
    if ks != [] {
      var last := ks[|ks| - 1];
      var before := ks[..|ks| - 1];
      assert ks == before + [last];
      OnceEach(before);
      assert KeySet(ks) == KeySet(before) + {last};
      assert last !in KeySet(before);
    }
  }

  lemma SameFirst(a: seq<Key>, b: seq<Key>)
    requires a != [] && b != [] && Sorted(KeyLess, a) && Sorted(KeyLess, b) && a[0] in b && b[0] in a
    requires forall x, y | x in a && y in a && Tied(x, y) :: x == y
    ensures a[0] == b[0]
  {
    KeyLessOrder(a[0], b[0]);
    var i :| 0 <= i < |b| && b[i] == a[0];
    var j :| 0 <= j < |a| && a[j] == b[0];
    assert a[0] in a;
  }

  lemma {:induction false} SortedUnique(a: seq<Key>, b: seq<Key>)
    requires Sorted(KeyLess, a) && Sorted(KeyLess, b) && multiset(a) == multiset(b)
    requires forall x, y | x in a && y in a && Tied(x, y) :: x == y
    ensures a == b
  {
    assert |a| == |multiset(a)| == |multiset(b)| == |b|;
    if a != [] {
      assert a[0] in multiset(b) && b[0] in multiset(a);
      SameFirst(a, b);
      SameRest(a, b);
      SortedUnique(a[1..], b[1..]);
      assert a == [a[0]] + a[1..] && b == [b[0]] + b[1..];
    }
  }

  lemma SameRest(a: seq<Key>, b: seq<Key>)
    requires a != [] && b != [] && a[0] == b[0] && multiset(a) == multiset(b)
    ensures multiset(a[1..]) == multiset(b[1..])
  {
    assert a == [a[0]] + a[1..] && b == [b[0]] + b[1..];
    assert multiset(a[1..]) == multiset(a) - multiset{a[0]};
    assert multiset(b[1..]) == multiset(b) - multiset{b[0]};
  }

  /** Without ties the resolved list depends on the set of keys only: not on their order, not on repeats. */
  lemma TieFreeCanonical(xs: seq<Key>, ys: seq<Key>)
    requires KnownKinds(xs) && KeySet(xs) == KeySet(ys) && TieFree(xs)
    ensures Resolve(xs) == Resolve(ys)
  {
    forall k ensures k in xs <==> k in ys {
      assert k in KeySet(xs) <==> k in KeySet(ys);
    }
    assert UsefulSet(xs) == UsefulSet(ys);
    ResolveMeaning(xs);
    ResolveMeaning(ys);
    forall k | k in Resolve(xs) ensures k in UsefulSet(xs) {
      assert k in KeySet(Resolve(xs));
    }
    SortedUnique(Resolve(xs), Resolve(ys));
  }

  // ---------------------------------------------------------------- a tie makes the order show

  function Swap(a: Key, b: Key, k: Key): Key {
    if k == a then b else if k == b then a else k
  }

  /** No comparison tells two tied keys apart. */
  lemma TiedAlike(a: Key, b: Key)
    requires Tied(a, b)
    ensures Preserves(KeyLess, (k: Key) => Swap(a, b, k))
  {
  }

  /** A deduplicated list is left as it is. */
  lemma {:induction false} DedupeFixed(seen: set<Key>, ks: seq<Key>)
    requires KnownKinds(ks) && (forall k | k in seen :: KnownKind(k.kind))
    requires forall k | k in ks :: Useful(k) && k !in seen
    requires forall i, j :: 0 <= i < j < |ks| ==> ks[i] != ks[j]
    ensures Dedupe(Tokens(seen), ks) == ks
    decreases |ks|
  {
    if ks != [] {
      var k := ks[0];
      if k.Canonical() in Tokens(seen) {
        var q :| q in seen && q.Canonical() == k.Canonical();
        CanonicalInjective(k, q);
      }
      assert Tokens(seen + {k}) == Tokens(seen) + {k.Canonical()};
      DedupeFixed(seen + {k}, ks[1..]);
      assert ks == [k] + ks[1..];
    }
  }

  function Useless(ks: seq<Key>): seq<Key> {
    if ks == [] then []
    else
      var before, k := Useless(ks[..|ks| - 1]), ks[|ks| - 1];
      if Useful(k) then before else before + [k]
  }

  lemma {:induction false} UselessMeaning(ks: seq<Key>)
    ensures forall k :: k in Useless(ks) <==> k in ks && !Useful(k)
  {
    if ks != [] {
      assert ks == ks[..|ks| - 1] + [ks[|ks| - 1]];
      UselessMeaning(ks[..|ks| - 1]);
    }
  }

  /** Keys without kind or value leave no trace. */
  lemma {:induction false} DedupeIgnores(seen: set<string>, ks: seq<Key>, junk: seq<Key>)
    requires forall k | k in junk :: !Useful(k)
    ensures Dedupe(seen, ks + junk) == Dedupe(seen, ks)
    decreases |ks| + |junk|
  {
    if ks != [] {
      assert (ks + junk)[1..] == ks[1..] + junk;
      DedupeIgnores(seen, ks[1..], junk);
      DedupeIgnores(seen + {ks[0].Canonical()}, ks[1..], junk);
    } else if junk != [] {
      assert ks + junk == junk && [] + junk[1..] == junk[1..];
      DedupeIgnores(seen, [], junk[1..]);
    }
  }

  /** Exchanging two tied keys throughout the input exchanges them in the resolved list. */
  lemma TieExchanges(xs: seq<Key>, a: Key, b: Key) returns (ys: seq<Key>)
    requires KnownKinds(xs) && a in UsefulSet(xs) && b in UsefulSet(xs) && Tied(a, b)
    ensures KeySet(ys) == KeySet(xs)
    ensures |Resolve(ys)| == |Resolve(xs)|
    ensures forall i | 0 <= i < |Resolve(xs)| :: Resolve(ys)[i] == Swap(a, b, Resolve(xs)[i])
  {
    var d, f, junk := Dedupe({}, xs), (k: Key) => Swap(a, b, k), Useless(xs);
    DedupeAll(xs);
    UselessMeaning(xs);
    var useful := Map(f, d);
    assert a in KeySet(d) && b in KeySet(d);
    SwapKeepsSet(a, b, d, useful);
    ys := useful + junk;
    forall k ensures k in ys <==> k in xs {
      assert k in d <==> k in KeySet(d);
    }
    forall k | k in useful ensures k in xs && Useful(k) {
      assert k in KeySet(d);
    }
    assert Tokens({}) == {};
    DedupeFixed({}, useful);
    DedupeIgnores({}, useful, junk);
    TiedAlike(a, b);
    MapRounds(KeyLess, f, d, |d|);
    assert Resolve(ys) == Map(f, Resolve(xs));
  }

  /** Two tied keys: the same keys listed with the two exchanged resolve differently. */
  lemma TieShows(xs: seq<Key>, a: Key, b: Key) returns (ys: seq<Key>)
    requires KnownKinds(xs) && a in UsefulSet(xs) && b in UsefulSet(xs) && a != b && Tied(a, b)
    ensures KeySet(ys) == KeySet(xs) && Resolve(ys) != Resolve(xs)
  {
    ys := TieExchanges(xs, a, b);
    ResolveMeaning(xs);
    assert a in KeySet(Resolve(xs));
    var i :| 0 <= i < |Resolve(xs)| && Resolve(xs)[i] == a;
    assert Resolve(ys)[i] == b;
  }

  lemma SwapKeepsSet(a: Key, b: Key, d: seq<Key>, ys: seq<Key>)
    requires a in d && b in d && |ys| == |d| && forall i | 0 <= i < |d| :: ys[i] == Swap(a, b, d[i])
    ensures forall k :: k in ys <==> k in d
    ensures KeySet(ys) == KeySet(d)
  {
    forall k ensures k in ys <==> k in d {
      if k in d {
        assert Swap(a, b, k) in d;
        var i :| 0 <= i < |d| && d[i] == Swap(a, b, k);
        assert ys[i] == k;
      }
      if k in ys {
        var i :| 0 <= i < |ys| && ys[i] == k;
        assert d[i] in d;
      }
    }
  }

  /** Key resolution is canonical exactly for the key lists without a tie. */
  lemma CanonicalExactlyWhen(xs: seq<Key>)
    requires KnownKinds(xs)
    ensures TieFree(xs) <==> forall ys: seq<Key> | KeySet(ys) == KeySet(xs) :: Resolve(ys) == Resolve(xs)
  {
    if TieFree(xs) {
      forall ys: seq<Key> | KeySet(ys) == KeySet(xs)
        ensures Resolve(ys) == Resolve(xs)
      {
        TieFreeCanonical(xs, ys);
      }
    } else {
      var a, b :| a in UsefulSet(xs) && b in UsefulSet(xs) && Tied(a, b) && a != b;
      var ys := TieShows(xs, a, b);
    }
  }

  /** Among the kinds the resolver emits, only a forum user and a telegram user id of equal value tie. */
  lemma OnlyUserTies(ks: seq<Key>)
    requires KnownKinds(ks)
    ensures TieFree(ks) <==>
            !exists v: string | v != "" :: Key("forum_user", v) in ks && Key("telegram_user_id", v) in ks
  {
    if v: string :| v != "" && Key("forum_user", v) in ks && Key("telegram_user_id", v) in ks {
      var a, b := Key("forum_user", v), Key("telegram_user_id", v);
      assert a in UsefulSet(ks) && b in UsefulSet(ks) && Tied(a, b);
      assert |a.kind| != |b.kind|;
    }
    if !TieFree(ks) {
      var a, b :| a in UsefulSet(ks) && b in UsefulSet(ks) && Tied(a, b) && a != b;
      var v := a.value;
      TiedKinds(a, b);
      assert v != "" && Key("forum_user", v) in ks && Key("telegram_user_id", v) in ks;
    }
  }

  lemma TiedKinds(a: Key, b: Key)
    requires KnownKind(a.kind) && KnownKind(b.kind) && Tied(a, b) && a != b
    ensures (a == Key("forum_user", a.value) && b == Key("telegram_user_id", a.value))
         || (b == Key("forum_user", a.value) && a == Key("telegram_user_id", a.value))
  {
    assert a.kind != b.kind;
  }

  // ---------------------------------------------------------------- ids

  /** The entity id: a digest of the strongest key's token. */
  function EntityID(digest: string -> string, keys: seq<Key>): string {
    if keys == [] then "" else digest(keys[0].Canonical())
  }

  function EntityIDForSplit(digest: string -> string, keys: seq<Key>, hash: string, sourceID: string): string {
    var base := EntityID(digest, keys);
    if base == "" || base != Trim(sourceID) || keys == [] || Trim(hash) == "" then base
    else digest(keys[0].Canonical() + ":split:" + Trim(hash))
  }

  lemma SameUseful(xs: seq<Key>, ys: seq<Key>)
    requires KeySet(xs) == KeySet(ys)
    ensures UsefulSet(xs) == UsefulSet(ys) && (KnownKinds(xs) ==> KnownKinds(ys))
  {
    forall k ensures k in xs <==> k in ys {
      assert k in KeySet(xs) <==> k in KeySet(ys);
    }
  }

  /** Some key of the list comes strictly before k. */
  ghost predicate Preceded(ks: seq<Key>, k: Key) {
    exists q | q in UsefulSet(ks) :: KeyLess(q, k)
  }

  /** Two different keys tie for the first place. */
  ghost predicate LeastTie(ks: seq<Key>, a: Key, b: Key) {
    a in UsefulSet(ks) && b in UsefulSet(ks) && a != b && Tied(a, b) && !Preceded(ks, a)
  }

  lemma ResolvedFirst(ks: seq<Key>)
    requires KnownKinds(ks)
    ensures Resolve(ks) != [] ==> Resolve(ks)[0] in UsefulSet(ks) && !Preceded(ks, Resolve(ks)[0])
    ensures Resolve(ks) == [] <==> UsefulSet(ks) == {}
  {
    var r := Resolve(ks);
    ResolveMeaning(ks);
    if r != [] {
      assert r[0] in KeySet(r);
      forall q | q in UsefulSet(ks)
        ensures !KeyLess(q, r[0])
      {
        assert q in KeySet(r);
        var i :| 0 <= i < |r| && r[i] == q;
        KeyLessOrder(q, r[0]);
      }
    } else if k :| k in UsefulSet(ks) {
      assert k in KeySet(r);
    }
  }

  /** Unless two keys tie for the first place, the strongest key is the same in every order. */
  lemma SamePrimary(xs: seq<Key>, ys: seq<Key>)
    requires KnownKinds(xs) && KeySet(xs) == KeySet(ys) && (forall a, b :: !LeastTie(xs, a, b))
    ensures |Resolve(xs)| > 0 <==> |Resolve(ys)| > 0
    ensures |Resolve(xs)| > 0 ==> Resolve(xs)[0] == Resolve(ys)[0]
  {
    SameUseful(xs, ys);
    ResolvedFirst(xs);
    ResolvedFirst(ys);
    if |Resolve(xs)| > 0 {
      var a, b := Resolve(xs)[0], Resolve(ys)[0];
      KeyLessOrder(a, b);
      assert !LeastTie(xs, a, b);
    }
  }

  /** Two keys that tie for the first place: the same keys in another order have another strongest key. */
  lemma LeastTieShows(xs: seq<Key>, a: Key, b: Key) returns (ys: seq<Key>)
    requires KnownKinds(xs) && LeastTie(xs, a, b)
    ensures KeySet(ys) == KeySet(xs) && |Resolve(xs)| > 0 && |Resolve(ys)| > 0 && Resolve(ys)[0] != Resolve(xs)[0]
  {
    ResolvedFirst(xs);
    var h := Resolve(xs)[0];
    KeyLessOrder(h, a);
    var other := if h == a then b else a;
    ys := TieExchanges(xs, h, other);
  }

  /** One id whenever no tie is first, one alias list whenever there is none, for every digest. */
  lemma IdAndAliasesCanonical(digest: string -> string, xs: seq<Key>, ys: seq<Key>)
    requires KnownKinds(xs) && KeySet(xs) == KeySet(ys)
    ensures (forall a, b :: !LeastTie(xs, a, b)) ==> EntityID(digest, Resolve(xs)) == EntityID(digest, Resolve(ys))
    ensures TieFree(xs) ==> AliasTokens(Resolve(xs)) == AliasTokens(Resolve(ys))
  {
    if forall a, b :: !LeastTie(xs, a, b) {
      SamePrimary(xs, ys);
    }
    if TieFree(xs) {
      TieFreeCanonical(xs, ys);
    }
  }

  ghost predicate Injective(digest: string -> string) {
    forall s: string, t: string :: digest(s) == digest(t) ==> s == t
  }

  /**
   * The entity id is the same for every order and repetition of the keys exactly if no two keys
   * tie for the first place: every tied pair has some key strictly before it.
   */
  lemma IdCanonicalExactlyWhen(digest: string -> string, xs: seq<Key>)
    requires KnownKinds(xs) && Injective(digest)
    ensures (forall a, b :: !LeastTie(xs, a, b)) <==>
            forall ys: seq<Key> | KeySet(ys) == KeySet(xs) ::
              EntityID(digest, Resolve(ys)) == EntityID(digest, Resolve(xs))
  {
    if forall a, b :: !LeastTie(xs, a, b) {
      forall ys: seq<Key> | KeySet(ys) == KeySet(xs)
        ensures EntityID(digest, Resolve(ys)) == EntityID(digest, Resolve(xs))
      {
        SamePrimary(xs, ys);
      }
    } else {
      var a, b :| LeastTie(xs, a, b);
      var ys := LeastTieShows(xs, a, b);
      SameUseful(xs, ys);
      ResolvedFirst(xs);
      ResolvedFirst(ys);
      if EntityID(digest, Resolve(ys)) == EntityID(digest, Resolve(xs)) {
        CanonicalInjective(Resolve(ys)[0], Resolve(xs)[0]);
      }
    }
  }

  lemma TokensDetermine(xs: seq<Key>, ys: seq<Key>)
    requires KnownKinds(xs) && KnownKinds(ys) && AliasTokens(xs) == AliasTokens(ys)
    ensures xs == ys
  {
    assert |xs| == |AliasTokens(xs)| == |ys|;
    forall i | 0 <= i < |xs|
      ensures xs[i] == ys[i]
    {
      assert AliasTokens(xs)[i] == AliasTokens(ys)[i];
      CanonicalInjective(xs[i], ys[i]);
    }
  }

  lemma ResolvedKinds(ks: seq<Key>)
    requires KnownKinds(ks)
    ensures KnownKinds(Resolve(ks))
  {
    ResolveMeaning(ks);
    forall k | k in Resolve(ks) ensures k in ks {
      assert k in KeySet(Resolve(ks));
    }
  }

  /** The alias list, unlike the id, is the same in every order exactly if no two keys tie at all. */
  lemma AliasesCanonicalExactlyWhen(xs: seq<Key>)
    requires KnownKinds(xs)
    ensures TieFree(xs) <==>
            forall ys: seq<Key> | KeySet(ys) == KeySet(xs) :: AliasTokens(Resolve(ys)) == AliasTokens(Resolve(xs))
  {
    CanonicalExactlyWhen(xs);
    if !TieFree(xs) {
      var ys: seq<Key> :| KeySet(ys) == KeySet(xs) && Resolve(ys) != Resolve(xs);
      SameUseful(xs, ys);
      ResolvedKinds(xs);
      ResolvedKinds(ys);
      if AliasTokens(Resolve(ys)) == AliasTokens(Resolve(xs)) {
        TokensDetermine(Resolve(ys), Resolve(xs));
      }
    }
  }

  /** A key of a stronger kind than the two user kinds hides their ties from the id. */
  lemma StrongerKeyHidesTies(ks: seq<Key>, k: Key)
    requires KnownKinds(ks) && k in UsefulSet(ks) && k.kind in {"company", "domain", "forum_uid"}
    ensures forall a, b :: !LeastTie(ks, a, b)
  {
    forall a, b
      ensures !LeastTie(ks, a, b)
    {
      if a in UsefulSet(ks) && b in UsefulSet(ks) && Tied(a, b) && a != b {
        TiedKinds(a, b);
        assert Priority(a.kind) == 3 && Priority(k.kind) < 3;
        assert KeyLess(k, a);
      }
    }
  }

  /** With a digest that prints hex and does not collide on the fork, a split never reuses the source id. */
  lemma SplitIdForks(digest: string -> string, keys: seq<Key>, hash: string, sourceID: string)
    requires keys != [] && Trim(hash) != ""
    requires forall s: string :: digest(s) != "" && Trimmed(digest(s))
    requires digest(keys[0].Canonical() + ":split:" + Trim(hash)) != digest(keys[0].Canonical())
    ensures EntityIDForSplit(digest, keys, hash, sourceID) != sourceID
  {
  }
}
