/** The order of resolved keys by the kinds' own names, and the id of the strongest one. */
module KeyOrder {
  import opened Text
  import opened Entity
  import opened ExchangeSort
  import opened Keys

  /** The kinds from the strongest to the weakest; the two user kinds are equally strong. */
  const CLASSES: seq<set<string>> :=
    [{"company"}, {"domain"}, {"forum_uid"}, {"forum_user", "telegram_user_id"}, {"telegram"}, {"channel"}]

  /** Neither kind is stronger: a does not come from a weaker class than b. */
  predicate NotWeaker(a: string, b: string) {
    exists i, j :: 0 <= i <= j < |CLASSES| && a in CLASSES[i] && b in CLASSES[j]
  }

  predicate SameClass(a: string, b: string) {
    a == b || (a in {"forum_user", "telegram_user_id"} && b in {"forum_user", "telegram_user_id"})
  }

  /** The class of a kind, read off its name. */
  predicate ClassIs(kind: string, i: nat) {
    i < |CLASSES| && kind in CLASSES[i]
  }

  lemma ClassOfKind(kind: string) returns (i: nat)
    requires KnownKind(kind)
    ensures ClassIs(kind, i) && i == Priority(kind)
  {
    i := Priority(kind);
    if kind == "company" {
      assert kind in CLASSES[0];
    } else if kind == "domain" {
      assert kind in CLASSES[1];
    } else if kind == "forum_uid" {
      assert kind in CLASSES[2];
    } else if kind == "forum_user" || kind == "telegram_user_id" {
      assert kind in CLASSES[3];
    } else if kind == "telegram" {
      assert kind in CLASSES[4];
    } else {
      assert kind == "channel" && kind in CLASSES[5];
    }
  }

  lemma OrderByName(a: Key, b: Key)
    requires KnownKind(a.kind) && KnownKind(b.kind) && !KeyLess(b, a)
    ensures NotWeaker(a.kind, b.kind) && (SameClass(a.kind, b.kind) ==> !Less(b.value, a.value))
  {
    var i := ClassOfKind(a.kind);
    var j := ClassOfKind(b.kind);
    assert i <= j;
    SamePriority(a.kind, b.kind);
  }

  lemma SamePriority(a: string, b: string)
    ensures SameClass(a, b) ==> Priority(a) == Priority(b)
  {
  }

  /**
   * The resolved list is ordered by kind, companies first, then domains, forum ids, forum users together with
   * telegram user ids, telegram names and channels; and by value among equally strong ones.
   */
  lemma ResolvedByKind(ks: seq<Key>)
    requires KnownKinds(ks)
    ensures forall i, j | 0 <= i < j < |Resolve(ks)| ::
              var a, b := Resolve(ks)[i], Resolve(ks)[j];
              NotWeaker(a.kind, b.kind) && (SameClass(a.kind, b.kind) ==> !Less(b.value, a.value))
  {
    var r := Resolve(ks);
    ResolveMeaning(ks);
    ResolvedKinds(ks);
    forall i, j | 0 <= i < j < |r|
      ensures NotWeaker(r[i].kind, r[j].kind) && (SameClass(r[i].kind, r[j].kind) ==> !Less(r[j].value, r[i].value))
    {
      assert r[i] in r && r[j] in r;
      OrderByName(r[i], r[j]);
    }
  }

  // ---------------------------------------------------------------- the primary key

  /** The list has a usable key of one of the kinds. */
  ghost predicate HasKind(ks: seq<Key>, kinds: set<string>) {
    exists k | k in ks :: k.kind in kinds && k.value != ""
  }

  /** The primary key is of one of these kinds, and none of them in the list has a lesser value. */
  ghost predicate PrimaryAmong(ks: seq<Key>, kinds: set<string>) {
    && |Resolve(ks)| > 0
    && var p := Resolve(ks)[0];
       && p in ks && p.kind in kinds && p.value != ""
       && forall k | k in ks && k.kind in kinds && k.value != "" :: !Less(k.value, p.value)
  }

  lemma FirstIsLeast(ks: seq<Key>, k: Key)
    requires KnownKinds(ks) && k in ks && k.value != ""
    ensures |Resolve(ks)| > 0 && Resolve(ks)[0] in ks && Resolve(ks)[0].value != "" && KnownKind(Resolve(ks)[0].kind)
    ensures Priority(Resolve(ks)[0].kind) <= Priority(k.kind)
    ensures Priority(Resolve(ks)[0].kind) == Priority(k.kind) ==> !Less(k.value, Resolve(ks)[0].value)
  {
    ResolvedFirst(ks);
    KindNotEmpty(k.kind);
    assert k in UsefulSet(ks);
    assert !Preceded(ks, Resolve(ks)[0]) && !KeyLess(k, Resolve(ks)[0]);
  }

  lemma KindNotEmpty(kind: string)
    requires KnownKind(kind)
    ensures kind != ""
  {
  }

  /** The primary key among keys of class i, if the list has one and none of a stronger class. */
  lemma PrimaryOfClass(ks: seq<Key>, kinds: set<string>, i: nat)
    requires KnownKinds(ks) && HasKind(ks, kinds)
    requires forall kind | KnownKind(kind) :: kind in kinds <==> Priority(kind) == i
    requires forall k | k in ks && k.value != "" :: Priority(k.kind) >= i
    ensures PrimaryAmong(ks, kinds)
  {
    var k :| k in ks && k.kind in kinds && k.value != "";
    FirstIsLeast(ks, k);
    forall q | q in ks && q.kind in kinds && q.value != ""
      ensures !Less(q.value, Resolve(ks)[0].value)
    {
      FirstIsLeast(ks, q);
    }
  }

  lemma ClassesByName(kind: string)
    requires KnownKind(kind)
    ensures Priority(kind) == 0 <==> kind == "company"
    ensures Priority(kind) == 1 <==> kind == "domain"
    ensures Priority(kind) == 2 <==> kind == "forum_uid"
    ensures Priority(kind) == 3 <==> kind == "forum_user" || kind == "telegram_user_id"
    ensures Priority(kind) == 4 <==> kind == "telegram"
    ensures Priority(kind) == 5 <==> kind == "channel"
  {
  }

  /**
   * The primary key is the least company, or without any the least domain, then forum id, then forum or telegram
   * user, then telegram name, then channel; and with no usable key there is none.
   */
  lemma PrimaryByKind(ks: seq<Key>)
    requires KnownKinds(ks)
    ensures if HasKind(ks, {"company"}) then PrimaryAmong(ks, {"company"})
            else if HasKind(ks, {"domain"}) then PrimaryAmong(ks, {"domain"})
            else if HasKind(ks, {"forum_uid"}) then PrimaryAmong(ks, {"forum_uid"})
            else if HasKind(ks, {"forum_user", "telegram_user_id"})
            then PrimaryAmong(ks, {"forum_user", "telegram_user_id"})
            else if HasKind(ks, {"telegram"}) then PrimaryAmong(ks, {"telegram"})
            else if HasKind(ks, {"channel"}) then PrimaryAmong(ks, {"channel"})
            else Resolve(ks) == []
  {
    forall kind | KnownKind(kind)
      ensures Priority(kind) == 0 <==> kind == "company"
      ensures Priority(kind) == 1 <==> kind == "domain"
      ensures Priority(kind) == 2 <==> kind == "forum_uid"
      ensures Priority(kind) == 3 <==> kind == "forum_user" || kind == "telegram_user_id"
      ensures Priority(kind) == 4 <==> kind == "telegram"
      ensures Priority(kind) == 5 <==> kind == "channel"
    {
      ClassesByName(kind);
    }
    if HasKind(ks, {"company"}) {
      PrimaryOfClass(ks, {"company"}, 0);
    } else if HasKind(ks, {"domain"}) {
      PrimaryOfClass(ks, {"domain"}, 1);
    } else if HasKind(ks, {"forum_uid"}) {
      PrimaryOfClass(ks, {"forum_uid"}, 2);
    } else if HasKind(ks, {"forum_user", "telegram_user_id"}) {
      PrimaryOfClass(ks, {"forum_user", "telegram_user_id"}, 3);
    } else if HasKind(ks, {"telegram"}) {
      PrimaryOfClass(ks, {"telegram"}, 4);
    } else if HasKind(ks, {"channel"}) {
      PrimaryOfClass(ks, {"channel"}, 5);
    } else {
      ResolvedFirst(ks);
    }
  }

  /** The entity id is the digest of the primary key's kind and value, and empty without one. */
  lemma IdOfPrimary(digest: string -> string, ks: seq<Key>)
    ensures |Resolve(ks)| > 0 ==>
              EntityID(digest, Resolve(ks)) == digest(Resolve(ks)[0].kind + ":" + Resolve(ks)[0].value)
    ensures |Resolve(ks)| == 0 ==> EntityID(digest, Resolve(ks)) == ""
  {
  }

  /** A lead of a company is filed under its least company key, whatever else identifies it. */
  lemma CompanyDecides(digest: string -> string, ks: seq<Key>, v: string)
    requires KnownKinds(ks) && v != "" && Key("company", v) in ks
    requires forall k | k in ks && k.kind == "company" && k.value != "" :: k.value == v || Less(v, k.value)
    ensures EntityID(digest, Resolve(ks)) == digest("company:" + v)
  {
    PrimaryByKind(ks);
    IdOfPrimary(digest, ks);
    var p := Resolve(ks)[0];
    assert p.kind == "company" && !Less(v, p.value);
    assert "company" + ":" + v == "company:" + v;
  }

  /** The id after a split: the keys' own, unless that is the source's; then it forks on the hash. */
  lemma SplitIdIs(digest: string -> string, keys: seq<Key>, hash: string, sourceID: string)
    requires keys != [] && Trim(hash) != "" && digest(keys[0].kind + ":" + keys[0].value) != ""
    ensures var own := digest(keys[0].kind + ":" + keys[0].value);
            EntityIDForSplit(digest, keys, hash, sourceID) ==
            if own != Trim(sourceID) then own
            else digest(keys[0].kind + ":" + keys[0].value + ":split:" + Trim(hash))
  {
  }
}
