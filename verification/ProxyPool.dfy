/** The proxy pool: round-robin over the endpoints that are not cooling down. */
module ProxyPoolModel {
  type Time = int

  /** The counter is a uint64 and wraps. */
  const WORD := 0x1_0000_0000_0000_0000

  predicate Ready(cooldown: Time, now: Time) {
    cooldown == 0 || now > cooldown
  }

  /** The pool indices not cooling, in pool order. */
  function Available(cools: seq<Time>, now: Time): seq<nat> {
    if cools == [] then []
    else
      var n := |cools| - 1;
      var before := Available(cools[..n], now);
      if Ready(cools[n], now) then before + [n] else before
  }

  lemma {:induction false} AvailableMeaning(cools: seq<Time>, now: Time)
    ensures var av := Available(cools, now);
            && (forall i :: i in av <==> 0 <= i < |cools| && Ready(cools[i], now))
            && (forall i, j :: 0 <= i < j < |av| ==> av[i] < av[j])
  {
    if cools != [] {
      var n := |cools| - 1;
      var before := Available(cools[..n], now);
      AvailableMeaning(cools[..n], now);
      forall i | 0 <= i < |before| ensures before[i] < n {
        assert before[i] in before;
      }
    }
  }

  lemma NoneReady(cools: seq<Time>, now: Time)
    requires Available(cools, now) == []
    ensures forall i | 0 <= i < |cools| :: !Ready(cools[i], now)
  {
    AvailableMeaning(cools, now);
    forall i | 0 <= i < |cools| ensures !Ready(cools[i], now) {
      assert i !in Available(cools, now);
    }
  }

  /** t is the earliest expiry of a pool that is cooling altogether. */
  ghost predicate EarliestExpiry(cools: seq<Time>, t: Time) {
    t in cools && forall i | 0 <= i < |cools| :: t <= cools[i]
  }

  function Next(counter: nat): nat {
    (counter + 1) % WORD
  }

  /** Where the k-th of consecutive picks over `size` available endpoints lands. */
  function Slot(counter: nat, i: nat, size: nat): nat
    requires size > 0
  {
    (counter + 1 + i) % WORD % size
  }

  // ---------------------------------------------------------------- in place

  class Endpoint {
    const key: string
    var cooldown: Time

    constructor (key: string)
      ensures this.key == key && cooldown == 0
    {
      this.key := key;
      cooldown := 0;
    }
  }

  class ProxyPool {
    const endpoints: seq<Endpoint>
    const cooldownDuration: Time
    var counter: nat

    /** newProxyPool: a cooldown that is not positive takes the default of ten minutes. */
    constructor (eps: seq<Endpoint>, cooldown: Time)
      requires forall i, j :: 0 <= i < j < |eps| ==> eps[i] != eps[j]
      ensures Valid() && endpoints == eps && counter == 0
      ensures cooldownDuration == if cooldown <= 0 then 600_000_000_000 else cooldown
    {
      endpoints, counter := eps, 0;
      cooldownDuration := if cooldown <= 0 then 600_000_000_000 else cooldown;
    }

    ghost predicate Valid()
      reads this
    {
      counter < WORD && forall i, j :: 0 <= i < j < |endpoints| ==> endpoints[i] != endpoints[j]
    }

    function Cools(): seq<Time>
      reads endpoints
    {
      seq(|endpoints|, i requires 0 <= i < |endpoints| reads endpoints => endpoints[i].cooldown)
    }

    /** pickEndpoint: a ready endpoint with its pool index, or the earliest expiry if none is ready. */
    method PickEndpoint(now: Time) returns (chosen: Endpoint?, index: int, waitUntil: Time)
      requires Valid()
      modifies this`counter
      ensures Valid()
      ensures var av := Available(Cools(), now);
              && (chosen == null <==> av == [])
              && (av == [] ==> index == -1 && counter == old(counter))
              && (av == [] && endpoints != [] ==> EarliestExpiry(Cools(), waitUntil))
              && (av != [] ==>
                    && counter == Next(old(counter)) && waitUntil == 0
                    && index == av[Slot(old(counter), 0, |av|)]
                    && 0 <= index < |endpoints| && chosen == endpoints[index] && Ready(endpoints[index].cooldown, now))
      ensures chosen == null <==>
              forall i | 0 <= i < |endpoints| :: endpoints[i].cooldown != 0 && now <= endpoints[i].cooldown
      ensures chosen != null ==> chosen.cooldown == 0 || chosen.cooldown < now
    {
      var available, earliest := Partition(now);
      AvailableMeaning(Cools(), now);
      if |available| == 0 {
        NoneReady(Cools(), now);
        forall i | 0 <= i < |endpoints| ensures endpoints[i].cooldown != 0 && now <= endpoints[i].cooldown {
          assert !Ready(Cools()[i], now);
        }
        return null, -1, earliest;
      }
      counter := (counter + 1) % WORD;
      var slot := counter % |available|;
      chosen := available[slot];
      ghost var target := Available(Cools(), now)[slot];
      assert target in Available(Cools(), now);
      index := IndexOf(chosen, target);
      waitUntil := 0;
    }

    /** The first loop of pickEndpoint: the ready endpoints, and the earliest expiry among the others. */
    method Partition(now: Time) returns (available: seq<Endpoint>, earliest: Time)
      ensures Picks(available, Available(Cools(), now))
      ensures (forall k | 0 <= k < |Cools()| :: !Ready(Cools()[k], now)) && endpoints != [] ==>
                EarliestExpiry(Cools(), earliest)
    {
      available, earliest := [], 0;
      ghost var cools := Cools();
      for i := 0 to |endpoints|
        invariant Picks(available, Available(cools[..i], now))
        invariant (forall k | 0 <= k < i :: !Ready(cools[k], now)) && i > 0 ==>
                    earliest != 0 && EarliestExpiry(cools[..i], earliest)
        invariant i == 0 ==> earliest == 0
      {
        var ep := endpoints[i];
        assert cools[..i + 1][..i] == cools[..i] && cools[..i + 1] == cools[..i] + [ep.cooldown];
        if Ready(ep.cooldown, now) {
          available := available + [ep];
          continue;
        }
        if earliest == 0 || ep.cooldown < earliest {
          earliest := ep.cooldown;
        }
      }
      assert cools[..|cools|] == cools;
    }

    /** The endpoints are those of the given pool indices. */
    ghost predicate Picks(eps: seq<Endpoint>, indices: seq<nat>) {
      |eps| == |indices| && forall k | 0 <= k < |eps| :: indices[k] < |endpoints| && eps[k] == endpoints[indices[k]]
    }

    /** The second loop: the chosen endpoint's place in the pool. */
    method IndexOf(ep: Endpoint, ghost target: nat) returns (index: int)
      requires Valid() && target < |endpoints| && endpoints[target] == ep
      ensures index == target
    {
      for i := 0 to |endpoints|
        invariant i <= target
      {
        if endpoints[i] == ep {
          return i;
        }
      }
      return -1;
    }

    /** pruneCooldowns */
    method PruneCooldowns(now: Time)
      requires Valid()
      modifies endpoints
      ensures Valid() && Cools() == Pruned(old(Cools()), now)
    {
      for i := 0 to |endpoints|
        invariant forall k | 0 <= k < |endpoints| ::
                    endpoints[k].cooldown == if k < i then Pruned(old(Cools()), now)[k] else old(endpoints[k].cooldown)
      {
        if endpoints[i].cooldown != 0 && now > endpoints[i].cooldown {
          endpoints[i].cooldown := 0;
        }
      }
    }

    /** markCooldown: the first endpoint of that key cools until the configured time from now. */
    method MarkCooldown(key: string, now: Time) returns (found: bool)
      requires Valid()
      modifies endpoints
      ensures Valid()
      ensures found <==> exists i | 0 <= i < |endpoints| :: endpoints[i].key == key
      ensures found ==> exists i | 0 <= i < |endpoints| ::
                && endpoints[i].key == key && (forall j | 0 <= j < i :: endpoints[j].key != key)
                && Cools() == old(Cools())[i := now + cooldownDuration]
      ensures !found ==> Cools() == old(Cools())
    {
      for i := 0 to |endpoints|
        invariant forall j | 0 <= j < i :: endpoints[j].key != key
        invariant Cools() == old(Cools())
      {
        if endpoints[i].key == key {
          endpoints[i].cooldown := now + cooldownDuration;
          assert Cools() == old(Cools())[i := now + cooldownDuration];
          return true;
        }
      }
      return false;
    }
  }

  function Pruned(cools: seq<Time>, now: Time): seq<Time> {
    seq(|cools|, i requires 0 <= i < |cools| => if cools[i] != 0 && now > cools[i] then 0 else cools[i])
  }

  /** Pruning never changes who is available, then or later. */
  lemma {:induction false} PruneKeepsAvailable(cools: seq<Time>, now: Time, later: Time)
    requires now <= later
    ensures Available(Pruned(cools, now), later) == Available(cools, later)
  {
    if cools != [] {
      var n := |cools| - 1;
      assert Pruned(cools, now)[..n] == Pruned(cools[..n], now);
      PruneKeepsAvailable(cools[..n], now, later);
    }
  }

  // ---------------------------------------------------------------- rotation

  lemma ModOf(x: int, q: int, k: nat, r: nat)
    requires k > 0 && x == q * k + r && r < k
    ensures x % k == r
  {
    var q' := x / k;
    var r' := x % k;
    assert x == q' * k + r';
    MultipleInRange(q - q', k, r' - r);
  }

  /** No multiple of k lies strictly between -k and k but zero. */
  lemma MultipleInRange(d: int, k: int, m: int)
    requires k > 0 && d * k == m && -k < m < k
    ensures d == 0 && m == 0
  {
    assert d >= 1 ==> d * k >= k;
    assert d <= -1 ==> d * k <= -k;
  }

  /** Fewer than k apart, two numbers differ modulo k. */
  lemma NearDiffer(x: nat, y: nat, k: nat)
    requires x < y < x + k
    ensures x % k != y % k
  {
    var d := y / k - x / k;
    assert x == x / k * k + x % k && y == y / k * k + y % k;
    if x % k == y % k {
      assert d * k == y - x;
      MultipleInRange(d, k, y - x);
    }
  }

  /** The counter wraps inside the run: neither before its first pick nor after its last. */
  predicate WrapsInside(counter: nat, size: nat) {
    counter + 1 < WORD < counter + 1 + size
  }

  ghost predicate AllDiffer(counter: nat, size: nat)
    requires size > 0
  {
    forall i: nat, j: nat | i < j < size :: Slot(counter, i, size) != Slot(counter, j, size)
  }

  lemma SlotNoWrap(counter: nat, i: nat, size: nat)
    requires size > 0 && counter + 1 + i < WORD
    ensures Slot(counter, i, size) == (counter + 1 + i) % size
  {
  }

  lemma SlotWrapped(counter: nat, i: nat, size: nat)
    requires 0 < size && counter < WORD <= counter + 1 + i && i < size <= WORD
    ensures Slot(counter, i, size) == counter + 1 + i - WORD
  {
    var v := counter + 1 + i - WORD;
    assert v < size;
    ModOf(counter + 1 + i, 1, WORD, v);
    ModOf(v, 0, size, v);
  }

  /** Just before the wrap, a pick lands where the word size's remainder puts it. */
  lemma SlotBeforeWrap(counter: nat, i: nat, size: nat)
    requires WrapsInside(counter, size) && size <= WORD && counter + 1 + i < WORD
    ensures var a, m := WORD - 1 - counter, WORD % size;
            Slot(counter, i, size) == if i + m >= a then i + m - a else i + m - a + size
  {
    var a, m, q := WORD - 1 - counter, WORD % size, WORD / size;
    SlotNoWrap(counter, i, size);
    assert WORD == q * size + m;
    if i + m >= a {
      ModOf(counter + 1 + i, q, size, i + m - a);
    } else {
      assert counter + 1 + i == (q - 1) * size + (i + m - a + size);
      ModOf(counter + 1 + i, q - 1, size, i + m - a + size);
    }
  }

  /** k consecutive picks over k ready endpoints never repeat, as long as the counter does not wrap among them. */
  lemma FairWithoutWrap(counter: nat, size: nat)
    requires 0 < size <= WORD && counter < WORD && !WrapsInside(counter, size)
    ensures AllDiffer(counter, size)
  {
    forall i: nat, j: nat | i < j < size
      ensures Slot(counter, i, size) != Slot(counter, j, size)
    {
      if counter + 1 == WORD {
        SlotWrapped(counter, i, size);
        SlotWrapped(counter, j, size);
      } else {
        SlotNoWrap(counter, i, size);
        SlotNoWrap(counter, j, size);
        NearDiffer(counter + 1 + i, counter + 1 + j, size);
      }
    }
  }

  lemma FairAcrossWrap(counter: nat, size: nat)
    requires 0 < size <= WORD && counter < WORD && WrapsInside(counter, size) && WORD % size == 0
    ensures AllDiffer(counter, size)
  {
    forall i: nat, j: nat | i < j < size
      ensures Slot(counter, i, size) != Slot(counter, j, size)
    {
      if counter + 1 + i < WORD { SlotBeforeWrap(counter, i, size); } else { SlotWrapped(counter, i, size); }
      if counter + 1 + j < WORD { SlotBeforeWrap(counter, j, size); } else { SlotWrapped(counter, j, size); }
    }
  }

  /** A wrap among the picks repeats an endpoint unless the pool size divides the word. */
  lemma UnfairAcrossWrap(counter: nat, size: nat)
    requires 0 < size <= WORD && counter < WORD && WrapsInside(counter, size) && WORD % size != 0
    ensures !AllDiffer(counter, size)
  {
    var a, m := WORD - 1 - counter, WORD % size;
    if m <= a {
      SlotBeforeWrap(counter, a - m, size);
      SlotWrapped(counter, a, size);
      assert Slot(counter, a - m, size) == Slot(counter, a, size);
    } else {
      SlotBeforeWrap(counter, 0, size);
      SlotWrapped(counter, m, size);
      assert Slot(counter, 0, size) == Slot(counter, m, size);
    }
  }

  /** Rotation is fair, each of k ready endpoints once in k picks, exactly when no wrap disturbs it. */
  lemma RotationExact(counter: nat, size: nat)
    requires 0 < size <= WORD && counter < WORD
    ensures AllDiffer(counter, size) <==> (!WrapsInside(counter, size) || WORD % size == 0)
  {
    if !WrapsInside(counter, size) {
      FairWithoutWrap(counter, size);
    } else if WORD % size == 0 {
      FairAcrossWrap(counter, size);
    } else {
      UnfairAcrossWrap(counter, size);
    }
  }

  /** The counter after i picks. */
  function After(counter: nat, i: nat): nat {
    if i == 0 then counter else Next(After(counter, i - 1))
  }

  /** The pool index of the i-th of consecutive picks over an unchanged set of ready endpoints. */
  function PickAt(counter: nat, av: seq<nat>, i: nat): nat
    requires av != []
  {
    av[Slot(After(counter, i), 0, |av|)]
  }

  lemma {:induction false} AfterIsSum(counter: nat, i: nat)
    requires counter < WORD
    ensures After(counter, i) == (counter + i) % WORD
  {
    if i == 0 {
      ModOf(counter, 0, WORD, counter);
    } else {
      AfterIsSum(counter, i - 1);
      ModSucc(counter + i - 1, WORD);
    }
  }

  /** Counting up commutes with wrapping. */
  lemma ModSucc(x: nat, m: nat)
    requires m > 1
    ensures (x % m + 1) % m == (x + 1) % m
  {
    var q, r := x / m, x % m;
    assert x == q * m + r;
    if r + 1 < m {
      ModOf(x + 1, q, m, r + 1);
      ModOf(r + 1, 0, m, r + 1);
    } else {
      assert x + 1 == (q + 1) * m + 0;
      ModOf(x + 1, q + 1, m, 0);
      ModOf(m, 1, m, 0);
    }
  }

  lemma PickAtSlot(counter: nat, av: seq<nat>, i: nat)
    requires av != [] && counter < WORD
    ensures PickAt(counter, av, i) == av[Slot(counter, i, |av|)]
  {
    AfterIsSum(counter, i);
    ModSucc(counter + i, WORD);
    SlotMoves(After(counter, i), counter, i, |av|);
  }

  lemma SlotMoves(c: nat, counter: nat, i: nat, size: nat)
    requires size > 0 && (c + 1) % WORD == (counter + 1 + i) % WORD
    ensures Slot(c, 0, size) == Slot(counter, i, size)
  {
    assert c + 1 + 0 == c + 1;
  }

  /** Undisturbed, k picks over k ready endpoints choose every one of them, and no one twice. */
  lemma EachOnce(counter: nat, av: seq<nat>)
    requires 0 < |av| <= WORD && counter < WORD && (!WrapsInside(counter, |av|) || WORD % |av| == 0)
    requires forall i, j :: 0 <= i < j < |av| ==> av[i] < av[j]
    ensures forall i: nat, j: nat | i < j < |av| :: PickAt(counter, av, i) != PickAt(counter, av, j)
    ensures forall x | x in av :: exists i: nat | i < |av| :: PickAt(counter, av, i) == x
  {
    var k := |av|;
    RotationExact(counter, k);
    forall i: nat, j: nat | i < j < k
      ensures PickAt(counter, av, i) != PickAt(counter, av, j)
    {
      PickAtSlot(counter, av, i);
      PickAtSlot(counter, av, j);
      var p, q := Slot(counter, i, k), Slot(counter, j, k);
      assert p < q ==> av[p] < av[q];
      assert q < p ==> av[q] < av[p];
    }
    forall x | x in av
      ensures exists i: nat | i < k :: PickAt(counter, av, i) == x
    {
      var p :| 0 <= p < k && av[p] == x;
      var i := Reached(counter, k, p);
      PickAtSlot(counter, av, i);
    }
  }

  /** k different slots below k reach every one of them. */
  lemma Reached(counter: nat, k: nat, p: nat) returns (i: nat)
    requires p < k && AllDiffer(counter, k)
    ensures i < k && Slot(counter, i, k) == p
  {
    var hit := SlotsOf(counter, k, k);
    SlotsSize(counter, k, k);
    var all := Below(k);
    BelowMeaning(k);
    assert hit <= all;
    assert all == hit + (all - hit);
    assert all - hit == {};
    assert p in all;
    i :| i < k && Slot(counter, i, k) == p;
  }

  ghost function SlotsOf(counter: nat, n: nat, k: nat): set<nat>
    requires k > 0
  {
    set i: nat | i < n :: Slot(counter, i, k)
  }

  lemma {:induction false} SlotsSize(counter: nat, n: nat, k: nat)
    requires n <= k && k > 0 && AllDiffer(counter, k)
    ensures |SlotsOf(counter, n, k)| == n
  {
    if n > 0 {
      SlotsSize(counter, n - 1, k);
      assert SlotsOf(counter, n, k) == SlotsOf(counter, n - 1, k) + {Slot(counter, n - 1, k)};
    }
  }

  function Below(k: nat): set<nat> {
    if k == 0 then {} else Below(k - 1) + {k - 1}
  }

  lemma {:induction false} BelowMeaning(k: nat)
    ensures |Below(k)| == k && forall x: nat :: x in Below(k) <==> x < k
  {
    if k > 0 {
      BelowMeaning(k - 1);
    }
  }
}
