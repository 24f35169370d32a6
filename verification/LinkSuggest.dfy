/** Entity pairs that share an alias and may need a merge or split review. */
module LinkSuggest {
  import opened Text

  /** The parts of an entity document the pair finder reads. */
  datatype Node = Node(id: string, aliases: seq<string>, pain: string)

  datatype Pair = Pair(a: string, b: string, shared: string, painA: string, painB: string)

  /** The two passes: by domain with conflicting pains, and by identity key. */
  datatype Pass = Domain | Identity

  const DOMAIN := "domain:"

  predicate IsIdentityKey(k: string) {
    && k != "" && !HasPrefix(k, DOMAIN)
    && (HasPrefix(k, "forum_user:") || HasPrefix(k, "forum_uid:")
        || HasPrefix(k, "telegram:") || HasPrefix(k, "email:"))
  }

  /** The key an alias contributes to a pass; empty if none. */
  function KeyFor(pass: Pass, alias: string): string {
    var k := Trim(alias);
    match pass
    case Domain => if HasPrefix(k, DOMAIN) then k[|DOMAIN|..] else ""
    case Identity => if IsIdentityKey(k) then k else ""
  }

  ghost predicate HasKey(pass: Pass, n: Node, k: string) {
    k != "" && exists alias | alias in n.aliases :: KeyFor(pass, alias) == k
  }

  /** Two nodes whose link through k is worth reviewing. `fold` is case folding. */
  predicate Conflict(fold: string -> string, pass: Pass, a: Node, b: Node) {
    && a.id != b.id
    && (pass.Domain? ==> Trim(a.pain) != "" && Trim(b.pain) != "" && fold(Trim(a.pain)) != fold(Trim(b.pain)))
  }

  ghost predicate Linked(fold: string -> string, pass: Pass, a: Node, b: Node, k: string) {
    HasKey(pass, a, k) && HasKey(pass, b, k) && Conflict(fold, pass, a, b)
  }

  /** The string the code deduplicates by. */
  function PairKey(a: string, b: string, shared: string): string {
    if Less(b, a) then b + "|" + a + "|" + shared else a + "|" + b + "|" + shared
  }

  function KeyOf(p: Pair): string {
    PairKey(p.a, p.b, p.shared)
  }

  function Keys(out: seq<Pair>): set<string> {
    set p | p in out :: KeyOf(p)
  }

  predicate Unique(out: seq<Pair>) {
    forall i, j :: 0 <= i < j < |out| ==> KeyOf(out[i]) != KeyOf(out[j])
  }

  function MakePair(a: Node, b: Node, k: string): Pair {
    Pair(a.id, b.id, k, Trim(a.pain), Trim(b.pain))
  }

  lemma PairKeySymmetric(a: string, b: string, k: string)
    ensures PairKey(a, b, k) == PairKey(b, a, k)
  {
    LessTotal(a, b);
    if Less(a, b) {
      LessAsymmetric(a, b);
    }
  }

  // ---------------------------------------------------------------- grouping

  /** The nodes of the group are documents that have the key. */
  ghost predicate GroupOf(pass: Pass, docs: seq<Node>, group: seq<Node>, k: string) {
    forall n | n in group :: n in docs && HasKey(pass, n, k)
  }

  ghost predicate Groups(pass: Pass, docs: seq<Node>, groups: map<string, seq<Node>>) {
    forall k | k in groups :: GroupOf(pass, docs, groups[k], k)
  }

  ghost predicate Grouped(pass: Pass, docs: seq<Node>, groups: map<string, seq<Node>>) {
    && Groups(pass, docs, groups)
    && (forall n, k | n in docs && HasKey(pass, n, k) :: k in groups && n in groups[k])
  }

  /** Grouped so far: all nodes before i, and of the current one the first j aliases. */
  ghost predicate GroupedTo(pass: Pass, docs: seq<Node>, i: nat, j: nat, groups: map<string, seq<Node>>)
    requires i <= |docs|
  {
    && Groups(pass, docs, groups)
    && (forall n, k | n in docs[..i] && HasKey(pass, n, k) :: k in groups && n in groups[k])
    && (i < |docs| ==> forall m | 0 <= m < j && m < |docs[i].aliases| && KeyFor(pass, docs[i].aliases[m]) != "" ::
          KeyFor(pass, docs[i].aliases[m]) in groups && docs[i] in groups[KeyFor(pass, docs[i].aliases[m])])
  }

  method Group(pass: Pass, docs: seq<Node>) returns (groups: map<string, seq<Node>>)
    ensures Grouped(pass, docs, groups)
  {
    groups := map[];
    for i := 0 to |docs|
      invariant GroupedTo(pass, docs, i, 0, groups)
    {
      for j := 0 to |docs[i].aliases|
        invariant GroupedTo(pass, docs, i, j, groups)
      {
        var k := KeyFor(pass, docs[i].aliases[j]);
        if k == "" {
          continue;
        }
        ghost var before := groups;
        groups := groups[k := (if k in groups then groups[k] else []) + [docs[i]]];
        GroupStep(pass, docs, i, j, before, groups, k);
      }
      NodeDone(pass, docs, i, groups);
    }
    assert docs[..|docs|] == docs;
  }

  lemma GroupStep(
      pass: Pass, docs: seq<Node>, i: nat, j: nat, before: map<string, seq<Node>>, after: map<string, seq<Node>>,
      k: string)
    requires i < |docs| && j < |docs[i].aliases| && GroupedTo(pass, docs, i, j, before)
    requires k == KeyFor(pass, docs[i].aliases[j]) != ""
    requires after == before[k := (if k in before then before[k] else []) + [docs[i]]]
    ensures GroupedTo(pass, docs, i, j + 1, after)
  {
    assert docs[i].aliases[j] in docs[i].aliases;
    GroupsStep(pass, docs, docs[i], before, after, k);
    forall x, n | x in before && n in before[x] ensures x in after && n in after[x] {}
    assert docs[i] in after[k];
  }

  lemma GroupsStep(
      pass: Pass, docs: seq<Node>, n: Node, before: map<string, seq<Node>>, after: map<string, seq<Node>>,
      k: string)
    requires Groups(pass, docs, before) && n in docs && HasKey(pass, n, k)
    requires after == before[k := (if k in before then before[k] else []) + [n]]
    ensures Groups(pass, docs, after)
  {
    if k in before {
      assert GroupOf(pass, docs, before[k], k);
    }
    assert GroupOf(pass, docs, after[k], k);
    forall x | x in after ensures GroupOf(pass, docs, after[x], x) {
      assert x != k ==> after[x] == before[x];
    }
  }

  lemma NodeDone(pass: Pass, docs: seq<Node>, i: nat, groups: map<string, seq<Node>>)
    requires i < |docs| && GroupedTo(pass, docs, i, |docs[i].aliases|, groups)
    ensures GroupedTo(pass, docs, i + 1, 0, groups)
  {
    forall n, k | n in docs[..i + 1] && HasKey(pass, n, k)
      ensures k in groups && n in groups[k]
    {
      if n !in docs[..i] {
        assert n == docs[i];
        var m :| 0 <= m < |n.aliases| && KeyFor(pass, n.aliases[m]) == k;
      }
    }
  }

  // ---------------------------------------------------------------- pairing

  /** The pair is made of two linked nodes. */
  ghost predicate FromLink(fold: string -> string, pass: Pass, docs: seq<Node>, p: Pair) {
    exists a, b | a in docs && b in docs :: Linked(fold, pass, a, b, p.shared) && p == MakePair(a, b, p.shared)
  }

  /** Every pair comes from two linked nodes. */
  ghost predicate Sound(fold: string -> string, pass: Pass, docs: seq<Node>, out: seq<Pair>) {
    forall p | p in out :: FromLink(fold, pass, docs, p)
  }

  /** The state of the emitting loops: no repeats, the seen set in step, nothing unjustified. */
  ghost predicate Emitted(fold: string -> string, pass: Pass, docs: seq<Node>, out: seq<Pair>, seen: set<string>) {
    Unique(out) && seen == Keys(out) && Sound(fold, pass, docs, out)
  }

  lemma EmitOne(
      fold: string -> string, pass: Pass, docs: seq<Node>, out: seq<Pair>, seen: set<string>, a: Node, b: Node,
      k: string)
    requires Emitted(fold, pass, docs, out, seen) && a in docs && b in docs && Linked(fold, pass, a, b, k)
    requires PairKey(a.id, b.id, k) !in seen
    ensures Emitted(fold, pass, docs, out + [MakePair(a, b, k)], seen + {PairKey(a.id, b.id, k)})
  {
    var p := MakePair(a, b, k);
    assert forall i | 0 <= i < |out| :: KeyOf(out[i]) in Keys(out);
    assert Keys(out + [p]) == Keys(out) + {KeyOf(p)};
  }

  /** All conflicting pairs of the group with a first position below i, or i and a second below j, are emitted. */
  ghost predicate Covered(
      fold: string -> string, pass: Pass, group: seq<Node>, k: string, i: nat, j: nat, seen: set<string>) {
    forall x, y | 0 <= x < y < |group| && (x < i || (x == i && y < j)) && Conflict(fold, pass, group[x], group[y]) ::
      PairKey(group[x].id, group[y].id, k) in seen
  }

  lemma CoveredNext(
      fold: string -> string, pass: Pass, group: seq<Node>, k: string, i: nat, j: nat, seen: set<string>,
      seen': set<string>)
    requires i < j < |group| && Covered(fold, pass, group, k, i, j, seen) && seen <= seen'
    requires Conflict(fold, pass, group[i], group[j]) ==> PairKey(group[i].id, group[j].id, k) in seen'
    ensures Covered(fold, pass, group, k, i, j + 1, seen')
  {
  }

  lemma CoveredRow(fold: string -> string, pass: Pass, group: seq<Node>, k: string, i: nat, seen: set<string>)
    requires i < |group|
    ensures Covered(fold, pass, group, k, i, |group|, seen) ==> Covered(fold, pass, group, k, i + 1, 0, seen)
    ensures Covered(fold, pass, group, k, i, 0, seen) ==> Covered(fold, pass, group, k, i, i + 1, seen)
  {
  }

  lemma CoveredMore(
      fold: string -> string, pass: Pass, group: seq<Node>, k: string, i: nat, j: nat, seen: set<string>,
      seen': set<string>)
    requires Covered(fold, pass, group, k, i, j, seen) && seen <= seen'
    ensures Covered(fold, pass, group, k, i, j, seen')
  {
  }

  /** The innermost body: emit a conflicting pair unless its key was seen. */
  method Consider(
      fold: string -> string, pass: Pass, ghost docs: seq<Node>, a: Node, b: Node, k: string, out0: seq<Pair>,
      seen0: set<string>)
    returns (out: seq<Pair>, seen: set<string>)
    requires Emitted(fold, pass, docs, out0, seen0)
    requires a in docs && b in docs && HasKey(pass, a, k) && HasKey(pass, b, k)
    ensures Emitted(fold, pass, docs, out, seen) && seen0 <= seen
    ensures Conflict(fold, pass, a, b) ==> PairKey(a.id, b.id, k) in seen
  {
    out, seen := out0, seen0;
    var key := PairKey(a.id, b.id, k);
    if !Conflict(fold, pass, a, b) || key in seen {
      return;
    }
    EmitOne(fold, pass, docs, out, seen, a, b, k);
    seen := seen + {key};
    out := out + [MakePair(a, b, k)];
  }

  /** The nested loops over one group. */
  method PairUp(
      fold: string -> string, pass: Pass, ghost docs: seq<Node>, group: seq<Node>, k: string, out0: seq<Pair>,
      seen0: set<string>)
    returns (out: seq<Pair>, seen: set<string>)
    requires Emitted(fold, pass, docs, out0, seen0) && GroupOf(pass, docs, group, k)
    ensures Emitted(fold, pass, docs, out, seen) && seen0 <= seen
    ensures Covered(fold, pass, group, k, |group|, 0, seen)
  {
    out, seen := out0, seen0;
    for i := 0 to |group|
      invariant Emitted(fold, pass, docs, out, seen) && seen0 <= seen
      invariant Covered(fold, pass, group, k, i, 0, seen)
    {
      CoveredRow(fold, pass, group, k, i, seen);
      for j := i + 1 to |group|
        invariant Emitted(fold, pass, docs, out, seen) && seen0 <= seen
        invariant Covered(fold, pass, group, k, i, j, seen)
      {
        ghost var before := seen;
        assert group[i] in group && group[j] in group;
        out, seen := Consider(fold, pass, docs, group[i], group[j], k, out, seen);
        CoveredNext(fold, pass, group, k, i, j, before, seen);
      }
      CoveredRow(fold, pass, group, k, i, seen);
    }
  }

  /** Every linked pair of nodes is emitted under its key. */
  ghost predicate Complete(fold: string -> string, pass: Pass, docs: seq<Node>, keys: set<string>) {
    forall a, b, k | a in docs && b in docs && Linked(fold, pass, a, b, k) :: PairKey(a.id, b.id, k) in keys
  }

  lemma FewDocuments(fold: string -> string, pass: Pass, docs: seq<Node>)
    requires |docs| < 2
    ensures Emitted(fold, pass, docs, [], {}) && Complete(fold, pass, docs, {})
  {
    NothingEmitted(fold, pass, docs);
    forall a, b, k | a in docs && b in docs
      ensures !Linked(fold, pass, a, b, k)
    {
      assert a == docs[0] && b == docs[0];
    }
  }

  lemma NothingEmitted(fold: string -> string, pass: Pass, docs: seq<Node>)
    ensures Emitted(fold, pass, docs, [], {})
  {
    assert Keys([]) == {};
  }

  /** findDomainPainPairs and findIdentityKeyPairs. */
  method FindPairs(fold: string -> string, pass: Pass, docs: seq<Node>) returns (out: seq<Pair>)
    ensures Unique(out) && Sound(fold, pass, docs, out) && Complete(fold, pass, docs, Keys(out))
  {
    if |docs| < 2 {
      FewDocuments(fold, pass, docs);
      return [];
    }
    var groups := Group(pass, docs);
    ghost var seen;
    out, seen := VisitGroups(fold, pass, docs, groups);
    AllCovered(fold, pass, docs, groups, seen);
  }

  /** The loop over the groups, which are visited in an order the code does not control. */
  method VisitGroups(fold: string -> string, pass: Pass, ghost docs: seq<Node>, groups: map<string, seq<Node>>)
    returns (out: seq<Pair>, ghost keys: set<string>)
    requires Groups(pass, docs, groups)
    ensures Emitted(fold, pass, docs, out, keys) && CoveredExcept(fold, pass, groups, {}, keys)
  {
    out := [];
    var seen: set<string> := {};
    NothingEmitted(fold, pass, docs);
    var left := groups.Keys;
    while left != {}
      invariant left <= groups.Keys && Emitted(fold, pass, docs, out, seen)
      invariant CoveredExcept(fold, pass, groups, left, seen)
      decreases |left|
    {
      var k :| k in left;
      ghost var before := seen;
      if |groups[k]| >= 2 {
        out, seen := PairUp(fold, pass, docs, groups[k], k, out, seen);
      }
      GroupCovered(fold, pass, groups, left, k, before, seen);
      left := left - {k};
    }
    keys := seen;
  }

  ghost predicate CoveredExcept(
      fold: string -> string, pass: Pass, groups: map<string, seq<Node>>, left: set<string>, seen: set<string>) {
    forall k | k in groups && k !in left :: Covered(fold, pass, groups[k], k, |groups[k]|, 0, seen)
  }

  lemma GroupCovered(
      fold: string -> string, pass: Pass, groups: map<string, seq<Node>>, left: set<string>, k: string,
      seen: set<string>, seen': set<string>)
    requires CoveredExcept(fold, pass, groups, left, seen) && seen <= seen' && k in groups
    requires |groups[k]| < 2 || Covered(fold, pass, groups[k], k, |groups[k]|, 0, seen')
    ensures CoveredExcept(fold, pass, groups, left - {k}, seen')
  {
    forall x | x in groups && x !in left - {k}
      ensures Covered(fold, pass, groups[x], x, |groups[x]|, 0, seen')
    {
      if x != k {
        CoveredMore(fold, pass, groups[x], x, |groups[x]|, 0, seen, seen');
      }
    }
  }

  lemma AllCovered(
      fold: string -> string, pass: Pass, docs: seq<Node>, groups: map<string, seq<Node>>, seen: set<string>)
    requires Grouped(pass, docs, groups)
    requires CoveredExcept(fold, pass, groups, {}, seen)
    ensures Complete(fold, pass, docs, seen)
  {
    forall a, b, k | a in docs && b in docs && Linked(fold, pass, a, b, k)
      ensures PairKey(a.id, b.id, k) in seen
    {
      var g := groups[k];
      var x :| 0 <= x < |g| && g[x] == a;
      var y :| 0 <= y < |g| && g[y] == b;
      PairKeySymmetric(a.id, b.id, k);
      assert Conflict(fold, pass, b, a);
    }
  }

  /** dedupeLinkPairs */
  method DedupePairs(pairs: seq<Pair>) returns (out: seq<Pair>)
    ensures Unique(out) && Keys(out) == Keys(pairs) && forall p | p in out :: p in pairs
  {
    out := [];
    var seen: set<string> := {};
    for i := 0 to |pairs|
      invariant Unique(out) && seen == Keys(out) == Keys(pairs[..i]) && forall p | p in out :: p in pairs
    {
      assert pairs[..i + 1] == pairs[..i] + [pairs[i]];
      assert Keys(pairs[..i + 1]) == Keys(pairs[..i]) + {KeyOf(pairs[i])};
      if KeyOf(pairs[i]) in seen {
        continue;
      }
      assert forall j | 0 <= j < |out| :: KeyOf(out[j]) in Keys(out);
      assert Keys(out + [pairs[i]]) == Keys(out) + {KeyOf(pairs[i])};
      seen := seen + {KeyOf(pairs[i])};
      out := out + [pairs[i]];
    }
    assert pairs[..|pairs|] == pairs;
  }

  /** A key is suggested exactly if two documents are linked under it by domain or by identity, and then once. */
  ghost predicate Exact(fold: string -> string, docs: seq<Node>, out: seq<Pair>) {
    && Unique(out)
    && (forall p | p in out :: exists pass :: FromLink(fold, pass, docs, p))
    && (forall pass :: Complete(fold, pass, docs, Keys(out)))
  }

  /** FindLinkSuggestPairs */
  method FindLinkSuggestPairs(fold: string -> string, docs: seq<Node>) returns (out: seq<Pair>)
    ensures Exact(fold, docs, out)
  {
    var byDomain := FindPairs(fold, Domain, docs);
    var byIdentity := FindPairs(fold, Identity, docs);
    out := DedupePairs(byDomain + byIdentity);
    assert Keys(byDomain + byIdentity) == Keys(byDomain) + Keys(byIdentity);
    forall p | p in out
      ensures exists pass :: FromLink(fold, pass, docs, p)
    {
      if p in byDomain {
        assert FromLink(fold, Domain, docs, p);
      } else {
        assert p in byIdentity;
        assert FromLink(fold, Identity, docs, p);
      }
    }
    forall pass ensures Complete(fold, pass, docs, Keys(out)) {
      match pass {
        case Domain =>
        case Identity =>
      }
    }
  }

  // ---------------------------------------------------------------- what the string key means

  lemma BarSplit(a: string, x: string, b: string, y: string)
    requires '|' !in a && '|' !in b && a + "|" + x == b + "|" + y
    ensures a == b && x == y
  {
    var s := a + "|" + x;
    assert s[|a|] == '|' && s[|b|] == '|';
    assert forall i | 0 <= i < |a| :: s[i] == a[i];
    assert forall i | 0 <= i < |b| :: s[i] == b[i];
    assert |a| == |b|;
    assert a == s[..|a|] && b == s[..|b|];
    assert x == s[|a| + 1..] && y == s[|b| + 1..];
  }

  /** For ids without a bar the key determines the unordered pair and the shared alias. */
  lemma PairKeyInjective(a: string, b: string, k: string, c: string, d: string, l: string)
    requires '|' !in a && '|' !in b && '|' !in c && '|' !in d && PairKey(a, b, k) == PairKey(c, d, l)
    ensures {a, b} == {c, d} && k == l
  {
    var p, q := if Less(b, a) then b else a, if Less(b, a) then a else b;
    var r, s := if Less(d, c) then d else c, if Less(d, c) then c else d;
    assert PairKey(a, b, k) == p + "|" + (q + "|" + k);
    assert PairKey(c, d, l) == r + "|" + (s + "|" + l);
    BarSplit(p, q + "|" + k, r, s + "|" + l);
    BarSplit(q, k, s, l);
  }

  ghost predicate Suggested(out: seq<Pair>, a: string, b: string, k: string) {
    exists p | p in out :: p.shared == k && {p.a, p.b} == {a, b}
  }

  /** Two documents with these ids are linked through the key. */
  ghost predicate Linkable(fold: string -> string, docs: seq<Node>, a: string, b: string, k: string) {
    exists pass, x, y | x in docs && y in docs :: {x.id, y.id} == {a, b} && Linked(fold, pass, x, y, k)
  }

  /** No two different links share the string the code deduplicates by. */
  ghost predicate NoCollision(fold: string -> string, docs: seq<Node>) {
    forall a, b, k, c, d, l | Linkable(fold, docs, a, b, k) && Linkable(fold, docs, c, d, l) ::
      PairKey(a, b, k) == PairKey(c, d, l) ==> {a, b} == {c, d} && k == l
  }

  /**
   * Sound and unique for all ids: whatever is suggested is a link, and no second suggestion repeats it. Complete
   * exactly if no two different links share a string key.
   */
  lemma SuggestedExactly(fold: string -> string, docs: seq<Node>, out: seq<Pair>)
    requires Exact(fold, docs, out)
    ensures forall a, b, k :: Suggested(out, a, b, k) ==> Linkable(fold, docs, a, b, k)
    ensures forall i, j | 0 <= i < j < |out| ::
              !(out[i].shared == out[j].shared && {out[i].a, out[i].b} == {out[j].a, out[j].b})
    ensures (forall a, b, k :: Linkable(fold, docs, a, b, k) ==> Suggested(out, a, b, k)) <==> NoCollision(fold, docs)
  {
    SuggestedIsLink(fold, docs, out);
    NoRepeats(out);
    if NoCollision(fold, docs) {
      forall a, b, k | Linkable(fold, docs, a, b, k)
        ensures Suggested(out, a, b, k)
      {
        LinkIsSuggested(fold, docs, out, a, b, k);
      }
    } else {
      CollisionLoses(fold, docs, out);
    }
  }

  lemma SuggestedIsLink(fold: string -> string, docs: seq<Node>, out: seq<Pair>)
    requires Exact(fold, docs, out)
    ensures forall a, b, k :: Suggested(out, a, b, k) ==> Linkable(fold, docs, a, b, k)
  {
    forall a, b, k | Suggested(out, a, b, k)
      ensures Linkable(fold, docs, a, b, k)
    {
      var p :| p in out && p.shared == k && {p.a, p.b} == {a, b};
      var pass :| FromLink(fold, pass, docs, p);
      var x, y :| x in docs && y in docs && Linked(fold, pass, x, y, p.shared) && p == MakePair(x, y, p.shared);
      assert {x.id, y.id} == {a, b} && Linked(fold, pass, x, y, k);
    }
  }

  lemma NoRepeats(out: seq<Pair>)
    requires Unique(out)
    ensures forall i, j | 0 <= i < j < |out| ::
              !(out[i].shared == out[j].shared && {out[i].a, out[i].b} == {out[j].a, out[j].b})
  {
    forall i, j | 0 <= i < j < |out|
      ensures !(out[i].shared == out[j].shared && {out[i].a, out[i].b} == {out[j].a, out[j].b})
    {
      SameSetSameKey(out[i], out[j]);
    }
  }

  lemma CollisionLoses(fold: string -> string, docs: seq<Node>, out: seq<Pair>)
    requires Unique(out) && !NoCollision(fold, docs)
    ensures !forall a, b, k :: Linkable(fold, docs, a, b, k) ==> Suggested(out, a, b, k)
  {
    var a, b, k, c, d, l :| Linkable(fold, docs, a, b, k) && Linkable(fold, docs, c, d, l)
                         && PairKey(a, b, k) == PairKey(c, d, l) && !({a, b} == {c, d} && k == l);
    OneOfTwoMissing(out, a, b, k, c, d, l);
  }

  /** Of two different links with one string key, at most one is suggested. */
  lemma OneOfTwoMissing(out: seq<Pair>, a: string, b: string, k: string, c: string, d: string, l: string)
    requires Unique(out) && PairKey(a, b, k) == PairKey(c, d, l) && !({a, b} == {c, d} && k == l)
    ensures !(Suggested(out, a, b, k) && Suggested(out, c, d, l))
  {
    if Suggested(out, a, b, k) && Suggested(out, c, d, l) {
      var p :| p in out && p.shared == k && {p.a, p.b} == {a, b};
      var q :| q in out && q.shared == l && {q.a, q.b} == {c, d};
      SameSetSameKey(p, Pair(a, b, k, "", ""));
      SameSetSameKey(q, Pair(c, d, l, "", ""));
    }
  }

  lemma LinkIsSuggested(fold: string -> string, docs: seq<Node>, out: seq<Pair>, a: string, b: string, k: string)
    requires Exact(fold, docs, out) && NoCollision(fold, docs) && Linkable(fold, docs, a, b, k)
    ensures Suggested(out, a, b, k)
  {
    var pass, x, y :| x in docs && y in docs && {x.id, y.id} == {a, b} && Linked(fold, pass, x, y, k);
    assert Complete(fold, pass, docs, Keys(out));
    assert PairKey(x.id, y.id, k) in Keys(out);
    var p :| p in out && KeyOf(p) == PairKey(x.id, y.id, k);
    var pass', u, v :| u in docs && v in docs && Linked(fold, pass', u, v, p.shared) && p == MakePair(u, v, p.shared);
    assert Linkable(fold, docs, p.a, p.b, p.shared) && Linkable(fold, docs, x.id, y.id, k);
  }

  // ---------------------------------------------------------------- what a link is

  predicate HasAlias(n: Node, token: string) {
    exists i :: 0 <= i < |n.aliases| && Trim(n.aliases[i]) == token
  }

  /** Two different entities list the domain, and both have a pain, which differ even when folded. */
  ghost predicate ShareDomain(fold: string -> string, x: Node, y: Node, domain: string) {
    && x.id != y.id && domain != ""
    && HasAlias(x, "domain:" + domain) && HasAlias(y, "domain:" + domain)
    && Trim(x.pain) != "" && Trim(y.pain) != "" && fold(Trim(x.pain)) != fold(Trim(y.pain))
  }

  /** Two different entities list the same forum user, forum uid, telegram or email key, whatever their pains. */
  ghost predicate ShareIdentity(x: Node, y: Node, token: string) {
    && x.id != y.id && HasAlias(x, token) && HasAlias(y, token)
    && ("forum_user:" <= token || "forum_uid:" <= token || "telegram:" <= token || "email:" <= token)
  }

  lemma HasDomainKey(n: Node, k: string)
    ensures HasKey(Domain, n, k) <==> k != "" && HasAlias(n, "domain:" + k)
  {
    if HasKey(Domain, n, k) {
      var alias :| alias in n.aliases && KeyFor(Domain, alias) == k;
      assert Trim(alias) == "domain:" + k;
    }
    if i :| 0 <= i < |n.aliases| && Trim(n.aliases[i]) == "domain:" + k {
      assert n.aliases[i] in n.aliases && ("domain:" + k)[|DOMAIN|..] == k;
    }
  }

  lemma HasIdentityKey(n: Node, k: string)
    ensures HasKey(Identity, n, k) <==>
            && HasAlias(n, k)
            && ("forum_user:" <= k || "forum_uid:" <= k || "telegram:" <= k || "email:" <= k)
  {
    assert "forum_user:" <= k || "forum_uid:" <= k || "telegram:" <= k || "email:" <= k ==> k[0] != 'd';
    if HasKey(Identity, n, k) {
      var alias :| alias in n.aliases && KeyFor(Identity, alias) == k;
      assert Trim(alias) == k;
    }
    if i :| 0 <= i < |n.aliases| && Trim(n.aliases[i]) == k {
      assert n.aliases[i] in n.aliases;
    }
  }

  /** What the two passes look for, by the aliases and pains themselves. */
  lemma LinkedMeans(fold: string -> string, x: Node, y: Node, k: string)
    ensures Linked(fold, Domain, x, y, k) <==> ShareDomain(fold, x, y, k)
    ensures Linked(fold, Identity, x, y, k) <==> ShareIdentity(x, y, k)
  {
    HasDomainKey(x, k);
    HasDomainKey(y, k);
    HasIdentityKey(x, k);
    HasIdentityKey(y, k);
  }

  /** A suggestion's pains are those of its two documents, trimmed, and its key is shared by both. */
  lemma SuggestionMeans(fold: string -> string, docs: seq<Node>, out: seq<Pair>, p: Pair) returns (x: Node, y: Node)
    requires Exact(fold, docs, out) && p in out
    ensures x in docs && y in docs && p == Pair(x.id, y.id, p.shared, Trim(x.pain), Trim(y.pain))
    ensures ShareDomain(fold, x, y, p.shared) || ShareIdentity(x, y, p.shared)
  {
    var pass :| FromLink(fold, pass, docs, p);
    x, y :| x in docs && y in docs && Linked(fold, pass, x, y, p.shared) && p == MakePair(x, y, p.shared);
    LinkedMeans(fold, x, y, p.shared);
  }

  /** Every two documents that share a domain with differing pains, or an identity key, are found under their key. */
  lemma SharedIsFound(fold: string -> string, docs: seq<Node>, out: seq<Pair>, x: Node, y: Node, k: string)
    requires Exact(fold, docs, out) && x in docs && y in docs
    requires ShareDomain(fold, x, y, k) || ShareIdentity(x, y, k)
    ensures exists p | p in out :: KeyOf(p) == PairKey(x.id, y.id, k)
  {
    LinkedMeans(fold, x, y, k);
    assert Complete(fold, Domain, docs, Keys(out)) && Complete(fold, Identity, docs, Keys(out));
    assert PairKey(x.id, y.id, k) in Keys(out);
  }

  // ---------------------------------------------------------------- ids without a bar

  /** Ids without a bar, such as the hex ids the resolver makes, never collide. */
  lemma BarFreeNeverCollides(fold: string -> string, docs: seq<Node>)
    requires forall n | n in docs :: '|' !in n.id
    ensures NoCollision(fold, docs)
  {
    forall a, b, k, c, d, l
      | Linkable(fold, docs, a, b, k) && Linkable(fold, docs, c, d, l) && PairKey(a, b, k) == PairKey(c, d, l)
      ensures {a, b} == {c, d} && k == l
    {
      LinkableBarFree(fold, docs, a, b, k);
      LinkableBarFree(fold, docs, c, d, l);
      PairKeyInjective(a, b, k, c, d, l);
    }
  }

  lemma LinkableBarFree(fold: string -> string, docs: seq<Node>, a: string, b: string, k: string)
    requires Linkable(fold, docs, a, b, k) && forall n | n in docs :: '|' !in n.id
    ensures '|' !in a && '|' !in b
  {
    var pass, x, y :| x in docs && y in docs && {x.id, y.id} == {a, b} && Linked(fold, pass, x, y, k);
    assert a in {x.id, y.id} && b in {x.id, y.id};
  }

  /** With bars in ids links do collide: a with b|c through k, and a with b through c|k. */
  lemma BarsCollide(fold: string -> string, a: string, b: string, c: string, k: string)
    requires Less(a, b) && Less(a, b + "|" + c)
    requires KeyFor(Identity, k) == k != "" && KeyFor(Identity, c + "|" + k) == c + "|" + k
    ensures !NoCollision(fold, [Node(a, [k, c + "|" + k], ""), Node(b + "|" + c, [k], ""), Node(b, [c + "|" + k], "")])
  {
    BarKeys(a, b, c, k);
    LessIrreflexive(a);
    TwoLinks(fold, a, b + "|" + c, b, k, c + "|" + k);
  }

  lemma BarKeys(a: string, b: string, c: string, k: string)
    requires Less(a, b) && Less(a, b + "|" + c)
    ensures PairKey(a, b + "|" + c, k) == PairKey(a, b, c + "|" + k) && k != c + "|" + k
  {
    LessAsymmetric(a, b);
    LessAsymmetric(a, b + "|" + c);
    assert a + "|" + (b + "|" + c) + "|" + k == a + "|" + b + "|" + (c + "|" + k);
    assert |k| != |c + "|" + k|;
  }

  lemma TwoLinks(fold: string -> string, a: string, b: string, c: string, k: string, l: string)
    requires a != b && a != c && k != l && PairKey(a, b, k) == PairKey(a, c, l)
    requires KeyFor(Identity, k) == k != "" && KeyFor(Identity, l) == l != ""
    ensures !NoCollision(fold, [Node(a, [k, l], ""), Node(b, [k], ""), Node(c, [l], "")])
  {
    var x, y, z := Node(a, [k, l], ""), Node(b, [k], ""), Node(c, [l], "");
    HasOwn(x, k);
    HasOwn(x, l);
    HasOwn(y, k);
    HasOwn(z, l);
    Collides(fold, [x, y, z], x, y, z, k, l);
  }

  lemma Collides(fold: string -> string, docs: seq<Node>, x: Node, y: Node, z: Node, k: string, l: string)
    requires x in docs && y in docs && z in docs && x.id != y.id && x.id != z.id
    requires HasKey(Identity, x, k) && HasKey(Identity, y, k) && HasKey(Identity, x, l) && HasKey(Identity, z, l)
    requires k != l && PairKey(x.id, y.id, k) == PairKey(x.id, z.id, l)
    ensures !NoCollision(fold, docs)
  {
    assert Linked(fold, Identity, x, y, k) && Linked(fold, Identity, x, z, l);
    assert Linkable(fold, docs, x.id, y.id, k) && Linkable(fold, docs, x.id, z.id, l);
  }

  lemma HasOwn(n: Node, k: string)
    requires k in n.aliases && KeyFor(Identity, k) == k != ""
    ensures HasKey(Identity, n, k)
  {
  }

  lemma SameSetSameKey(p: Pair, q: Pair)
    ensures p.shared == q.shared && {p.a, p.b} == {q.a, q.b} ==> KeyOf(p) == KeyOf(q)
  {
    PairKeySymmetric(p.a, p.b, p.shared);
    if {p.a, p.b} == {q.a, q.b} {
      assert p.a in {q.a, q.b} && p.b in {q.a, q.b} && q.a in {p.a, p.b} && q.b in {p.a, p.b};
    }
  }
}
