/** The TTL- and capacity-bounded dedup cache against the unbounded log of marks. */
module SeenCacheModel {
  import opened Lists

  type Time = int

  /** The cache's contents: last mark per resident id, and the ids in the order they became resident. */
  datatype Cache = Cache(items: map<string, Time>, order: seq<string>)

  const EMPTY := Cache(map[], [])

  datatype Bounds = Bounds(maxSize: int, ttl: Time)

  predicate Positive(b: Bounds) {
    b.maxSize > 0 && b.ttl > 0
  }

  /** The ids of the order list that have not expired, in order. */
  function Keep(order: seq<string>, items: map<string, Time>, now: Time, ttl: Time): seq<string> {
    if order == [] then []
    else
      var kept, id := Keep(order[..|order| - 1], items, now, ttl), order[|order| - 1];
      if id in items && now - items[id] <= ttl then kept + [id] else kept
  }

  function Alive(items: map<string, Time>, now: Time, ttl: Time): map<string, Time> {
    map id | id in items && now - items[id] <= ttl :: items[id]
  }

  /** evictExpiredLocked */
  function Expire(c: Cache, now: Time, ttl: Time): Cache {
    Cache(Alive(c.items, now, ttl), Keep(c.order, c.items, now, ttl))
  }

  /** Insert or refresh; only an insertion takes a new place at the end. */
  function Put(c: Cache, id: string, now: Time): Cache {
    Cache(c.items[id := now], if id in c.items then c.order else c.order + [id])
  }

  /** Over capacity, the head of the order list goes. */
  function Shrink(c: Cache, maxSize: int): Cache {
    if |c.items| > maxSize && c.order != [] then Cache(c.items - {c.order[0]}, c.order[1..]) else c
  }

  function Mark(c: Cache, id: string, now: Time, b: Bounds): Cache {
    Shrink(Put(Expire(c, now, b.ttl), id, now), b.maxSize)
  }

  /** The order list holds every resident id once. */
  ghost predicate Wf(c: Cache) {
    NoDup(c.order) && forall id :: id in c.order <==> id in c.items
  }

  lemma {:induction false} KeepMeaning(order: seq<string>, items: map<string, Time>, now: Time, ttl: Time)
    requires NoDup(order)
    ensures forall id :: id in Keep(order, items, now, ttl) <==> id in order && id in Alive(items, now, ttl)
    ensures NoDup(Keep(order, items, now, ttl))
  {
    if order != [] {
      var before, id := order[..|order| - 1], order[|order| - 1];
      assert order == before + [id];
      KeepMeaning(before, items, now, ttl);
      assert id !in before;
    }
  }

  lemma SetSize<T>(a: set<T>, b: set<T>)
    requires a <= b
    ensures |a| <= |b| && (|a| == |b| ==> a == b)
  {
    assert b == a + (b - a);
  }

  lemma ExpireWf(c: Cache, now: Time, ttl: Time)
    requires Wf(c)
    ensures Wf(Expire(c, now, ttl)) && |Expire(c, now, ttl).items| <= |c.items|
  {
    KeepMeaning(c.order, c.items, now, ttl);
    SetSize(Alive(c.items, now, ttl).Keys, c.items.Keys);
  }

  lemma PutWf(c: Cache, id: string, now: Time)
    requires Wf(c)
    ensures Wf(Put(c, id, now))
    ensures |Put(c, id, now).items| == if id in c.items then |c.items| else |c.items| + 1
  {
    var p := Put(c, id, now);
    assert p.items.Keys == c.items.Keys + {id};
    if id in c.items {
      assert p.items.Keys == c.items.Keys;
    }
  }

  lemma ShrinkWf(c: Cache, maxSize: int)
    requires Wf(c) && maxSize > 0 && |c.items| <= maxSize + 1
    ensures Wf(Shrink(c, maxSize)) && |Shrink(c, maxSize).items| <= maxSize
    ensures |c.items| > maxSize ==> |c.order| > 1
  {
    SizeOfOrder(c);
    if |c.items| > maxSize {
      BeheadWf(c);
    }
  }

  lemma BeheadWf(c: Cache)
    requires Wf(c) && c.order != []
    ensures Wf(Cache(c.items - {c.order[0]}, c.order[1..])) && |c.items - {c.order[0]}| == |c.items| - 1
  {
    var h := c.order[0];
    assert (c.items - {h}).Keys == c.items.Keys - {h};
    assert c.order == [h] + c.order[1..];
  }

  lemma SizeOfOrder(c: Cache)
    requires Wf(c)
    ensures |c.order| == |c.items|
  {
    NoDupSize(c.order);
    assert Elems(c.order) == c.items.Keys;
  }

  /** Every mark leaves a well-formed cache within its capacity. */
  lemma MarkWf(c: Cache, id: string, now: Time, b: Bounds)
    requires Wf(c) && Positive(b) && |c.items| <= b.maxSize
    ensures Wf(Mark(c, id, now, b)) && |Mark(c, id, now, b).items| <= b.maxSize
  {
    ExpireWf(c, now, b.ttl);
    PutWf(Expire(c, now, b.ttl), id, now);
    ShrinkWf(Put(Expire(c, now, b.ttl), id, now), b.maxSize);
  }

  // ---------------------------------------------------------------- in place

  /** The map after the expiry loop has looked at some of the ids. */
  function Swept(all: map<string, Time>, ids: seq<string>, now: Time, ttl: Time): map<string, Time> {
    map id | id in all && (id in ids ==> now - all[id] <= ttl) :: all[id]
  }

  lemma SweptStep(all: map<string, Time>, ids: seq<string>, id: string, now: Time, ttl: Time)
    requires id !in ids
    ensures Swept(all, ids + [id], now, ttl) ==
            if id in all && now - all[id] > ttl then Swept(all, ids, now, ttl) - {id} else Swept(all, ids, now, ttl)
    ensures id in Swept(all, ids, now, ttl) <==> id in all
  {
  }

  lemma SweptAll(c: Cache, now: Time, ttl: Time)
    requires Wf(c)
    ensures Swept(c.items, c.order, now, ttl) == Alive(c.items, now, ttl)
    ensures Swept(c.items, [], now, ttl) == c.items
  {
  }

  /** The expiry loop: expired entries leave the map while the surviving ids are compacted. */
  method Sweep(
      all: map<string, Time>, ids: seq<string>, now: Time,
      ttl: Time) returns (items: map<string, Time>, kept: seq<string>)
    requires NoDup(ids)
    ensures items == Swept(all, ids, now, ttl) && kept == Keep(ids, all, now, ttl)
  {
    items, kept := all, [];
    for i := 0 to |ids|
      invariant kept == Keep(ids[..i], all, now, ttl)
      invariant items == Swept(all, ids[..i], now, ttl)
    {
      var id := ids[i];
      assert ids[..i + 1][..i] == ids[..i] && ids[..i + 1] == ids[..i] + [id];
      SweptStep(all, ids[..i], id, now, ttl);
      if id !in items {
        continue;
      }
      if now - items[id] > ttl {
        items := items - {id};
        continue;
      }
      kept := kept + [id];
    }
    assert ids[..|ids|] == ids;
  }

  class SeenCache {
    var items: map<string, Time>
    var order: seq<string>
    const maxSize: int
    const ttl: Time

    function View(): Cache
      reads this
    {
      Cache(items, order)
    }

    function Limits(): Bounds {
      Bounds(maxSize, ttl)
    }

    ghost predicate Valid()
      reads this
    {
      Wf(View()) && Positive(Limits()) && |items| <= maxSize
    }

    /** NewSeenCache: what is not positive takes its default. */
    constructor (maxSize: int, ttl: Time)
      ensures Valid() && View() == EMPTY
      ensures this.maxSize == (if maxSize <= 0 then 50_000 else maxSize)
      ensures this.ttl == if ttl <= 0 then 86_400_000_000_000 else ttl
    {
      this.maxSize := if maxSize <= 0 then 50_000 else maxSize;
      this.ttl := if ttl <= 0 then 86_400_000_000_000 else ttl;
      items, order := map[], [];
    }

    /** evictExpiredLocked: the order list is compacted while expired entries leave the map. */
    method EvictExpired(now: Time)
      requires Valid()
      modifies this`items, this`order
      ensures Valid() && View() == Expire(old(View()), now, ttl)
    {
      ghost var c := View();
      ExpireWf(c, now, ttl);
      SweptAll(c, now, ttl);
      if |items| == 0 {
        SizeOfOrder(c);
        assert Alive(items, now, ttl) == items;
        return;
      }
      items, order := Sweep(items, order, now, ttl);
    }

    /** Seen; `now` and `later` are its two clock readings. */
    method Seen(id: string, now: Time, later: Time) returns (seen: bool)
      requires Valid()
      modifies this`items, this`order
      ensures Valid() && View() == Expire(old(View()), now, ttl)
      ensures seen <==> id in old(items) && now - old(items)[id] <= ttl && later - old(items)[id] <= ttl
    {
      EvictExpired(now);
      seen := id in items && later - items[id] <= ttl;
    }

    /** Mark */
    method MarkSeen(id: string, now: Time)
      requires Valid()
      modifies this`items, this`order
      ensures Valid() && View() == Mark(old(View()), id, now, Limits())
    {
      MarkWf(View(), id, now, Limits());
      EvictExpired(now);
      ghost var e := View();
      PutWf(e, id, now);
      if id !in items {
        order := order + [id];
      }
      items := items[id := now];
      ghost var p := View();
      assert p == Put(e, id, now);
      ShrinkWf(p, maxSize);
      while |items| > maxSize
        invariant View() == p || (View() == Shrink(p, maxSize) && |items| <= maxSize)
        decreases |items|
      {
        var oldest := order[0];
        assert oldest in items.Keys;
        order := order[1..];
        items := items - {oldest};
      }
    }
  }

  // ---------------------------------------------------------------- against the log of marks

  datatype Marked = Marked(id: string, at: Time)

  datatype Last = Never | At(time: Time)

  /** When the log last marked the id. */
  function LastMark(log: seq<Marked>, id: string): Last {
    if log == [] then Never
    else if log[|log| - 1].id == id then At(log[|log| - 1].at)
    else LastMark(log[..|log| - 1], id)
  }

  ghost predicate Live(log: seq<Marked>, id: string, now: Time, ttl: Time) {
    LastMark(log, id).At? && now - LastMark(log, id).time <= ttl
  }

  ghost function LiveIds(log: seq<Marked>, now: Time, ttl: Time): set<string> {
    set m | m in log && Live(log, m.id, now, ttl) :: m.id
  }

  datatype Op = Look(id: string, now: Time) | Tag(id: string, now: Time)

  /**
   * A cache, the log of all marks so far and, for each id ever marked, the number of the mark
   * that last made it resident, at the instant of the last operation.
   */
  datatype State = State(cache: Cache, log: seq<Marked>, arrived: map<string, nat>, now: Time)

  function Apply(b: Bounds, st: State, op: Op): State {
    match op
    case Look(id, now) => st.(cache := Expire(st.cache, now, b.ttl), now := now)
    case Tag(id, now) =>
      State(Mark(st.cache, id, now, b), st.log + [Marked(id, now)],
            if id in Expire(st.cache, now, b.ttl).items then st.arrived else st.arrived[id := |st.log|], now)
  }

  /** What Seen answers. */
  predicate Answer(b: Bounds, st: State, id: string, now: Time, later: Time) {
    id in st.cache.items && now - st.cache.items[id] <= b.ttl && later - st.cache.items[id] <= b.ttl
  }

  /** Resident ids carry the time of their last mark. */
  ghost predicate Inv(b: Bounds, st: State) {
    && Wf(st.cache) && |st.cache.items| <= b.maxSize
    && forall id | id in st.cache.items :: LastMark(st.log, id) == At(st.cache.items[id])
  }

  /** Every live id is resident. */
  ghost predicate Complete(b: Bounds, st: State) {
    forall id: string :: Live(st.log, id, st.now, b.ttl) ==> id in st.cache.items
  }

  lemma LastMarkSnoc(log: seq<Marked>, m: Marked, id: string)
    ensures LastMark(log + [m], id) == if m.id == id then At(m.at) else LastMark(log, id)
  {
    assert (log + [m])[..|log|] == log;
  }

  lemma {:induction false} LastMarkInLog(log: seq<Marked>, id: string)
    ensures LastMark(log, id).At? <==> exists m | m in log :: m.id == id
  {
    if log != [] {
      assert log == log[..|log| - 1] + [log[|log| - 1]];
      LastMarkInLog(log[..|log| - 1], id);
    }
  }

  lemma StepInv(b: Bounds, st: State, op: Op)
    requires Positive(b) && Inv(b, st)
    ensures Inv(b, Apply(b, st, op))
  {
    match op
    case Look(id, now) => ExpireWf(st.cache, now, b.ttl);
    case Tag(id, now) =>
      MarkWf(st.cache, id, now, b);
      MarkItems(st.cache, id, now, b);
      var st' := Apply(b, st, op);
      forall x | x in st'.cache.items
        ensures LastMark(st'.log, x) == At(st'.cache.items[x])
      {
        LastMarkSnoc(st.log, Marked(id, now), x);
      }
  }

  lemma MarkItems(c: Cache, id: string, now: Time, b: Bounds)
    ensures var m := Mark(c, id, now, b).items;
            forall x | x in m :: if x == id then m[x] == now else x in c.items && m[x] == c.items[x]
  {
    var p := Put(Expire(c, now, b.ttl), id, now);
    forall x | x in Shrink(p, b.maxSize).items ensures x in p.items && Shrink(p, b.maxSize).items[x] == p.items[x] {}
  }

  /** Seen never answers true for an id that was not marked within the TTL. */
  lemma SeenIsSound(b: Bounds, st: State, id: string, now: Time, later: Time)
    requires Inv(b, st) && Answer(b, st, id, now, later)
    ensures Live(st.log, id, later, b.ttl)
  {
  }

  /** An id just marked is seen, until its TTL runs out. */
  lemma JustMarkedIsSeen(b: Bounds, st: State, id: string, t: Time, now: Time, later: Time)
    requires Positive(b) && Inv(b, st) && t <= now <= later
    ensures Answer(b, Apply(b, st, Tag(id, t)), id, now, later) <==> later - t <= b.ttl
  {
    var e := Expire(st.cache, t, b.ttl);
    ExpireWf(st.cache, t, b.ttl);
    PutWf(e, id, t);
    ShrinkWf(Put(e, id, t), b.maxSize);
    NewestStays(Put(e, id, t), id, b.maxSize, e);
  }

  lemma NewestStays(p: Cache, id: string, maxSize: int, e: Cache)
    requires Wf(p) && id in p.items && (id in e.items ==> |p.items| <= maxSize)
    requires |e.items| <= maxSize && p.order == if id in e.items then e.order else e.order + [id]
    requires |p.items| > maxSize ==> |p.order| > 1
    ensures id in Shrink(p, maxSize).items && Shrink(p, maxSize).items[id] == p.items[id]
  {
    if |p.items| > maxSize {
      assert p.order[|p.order| - 1] == id && p.order[0] != p.order[|p.order| - 1];
    }
  }

  // ---------------------------------------------------------------- who leaves

  /** The listed ids became resident in the order they are listed, all before mark number n. */
  ghost predicate Queued(order: seq<string>, arrived: map<string, nat>, n: nat) {
    && (forall i | 0 <= i < |order| :: order[i] in arrived && arrived[order[i]] < n)
    && forall i, j :: 0 <= i < j < |order| ==> arrived[order[i]] < arrived[order[j]]
  }

  lemma {:induction false} KeepQueued(
      order: seq<string>, items: map<string, Time>, now: Time, ttl: Time, arrived: map<string, nat>, n: nat)
    requires Queued(order, arrived, n) && NoDup(order)
    ensures Queued(Keep(order, items, now, ttl), arrived, n)
  {
    if order != [] {
      var before, id := order[..|order| - 1], order[|order| - 1];
      KeepQueued(before, items, now, ttl, arrived, n);
      KeepMeaning(before, items, now, ttl);
      var k := Keep(before, items, now, ttl);
      forall i | 0 <= i < |k|
        ensures arrived[k[i]] < arrived[id]
      {
        assert k[i] in before;
        var j :| 0 <= j < |before| && before[j] == k[i];
        assert order[j] == k[i];
      }
    }
  }

  lemma StepQueued(b: Bounds, st: State, op: Op)
    requires Positive(b) && Inv(b, st) && Queued(st.cache.order, st.arrived, |st.log|)
    ensures Queued(Apply(b, st, op).cache.order, Apply(b, st, op).arrived, |Apply(b, st, op).log|)
  {
    KeepQueued(st.cache.order, st.cache.items, op.now, b.ttl, st.arrived, |st.log|);
    ExpireWf(st.cache, op.now, b.ttl);
    if op.Tag? {
      var e := Expire(st.cache, op.now, b.ttl);
      var arrived := if op.id in e.items then st.arrived else st.arrived[op.id := |st.log|];
      PutQueued(e, op.id, op.now, st.arrived, |st.log|);
      ShrinkQueued(Put(e, op.id, op.now), b.maxSize, arrived, |st.log| + 1);
    }
  }

  lemma ShrinkQueued(p: Cache, maxSize: int, arrived: map<string, nat>, n: nat)
    requires Queued(p.order, arrived, n)
    ensures Queued(Shrink(p, maxSize).order, arrived, n)
  {
  }

  lemma PutQueued(e: Cache, id: string, now: Time, arrived: map<string, nat>, n: nat)
    requires Wf(e) && Queued(e.order, arrived, n)
    ensures Queued(Put(e, id, now).order, if id in e.items then arrived else arrived[id := n], n + 1)
  {
    forall i | 0 <= i < |e.order| ensures e.order[i] == id <==> e.order[i] in {id} {
      assert e.order[i] in e.order;
    }
  }

  /** A mark that overflows the cache evicts exactly one id: the one that has been resident longest. */
  lemma VictimIsLongestResident(b: Bounds, st: State, id: string, now: Time, victim: string)
    requires Positive(b) && Inv(b, st) && Queued(st.cache.order, st.arrived, |st.log|)
    requires victim in Put(Expire(st.cache, now, b.ttl), id, now).items
    requires victim !in Apply(b, st, Tag(id, now)).cache.items
    ensures var p, st' := Put(Expire(st.cache, now, b.ttl), id, now), Apply(b, st, Tag(id, now));
            && st'.cache.items == p.items - {victim} && victim in st'.arrived
            && forall x | x in p.items && x != victim :: x in st'.arrived && st'.arrived[victim] < st'.arrived[x]
  {
    var e := Expire(st.cache, now, b.ttl);
    var p, st' := Put(e, id, now), Apply(b, st, Tag(id, now));
    assert st'.cache == Shrink(p, b.maxSize);
    PutIsQueued(b, st, id, now);
    LongestLeaves(p, b.maxSize, victim, st'.arrived, |st.log| + 1);
  }

  lemma PutIsQueued(b: Bounds, st: State, id: string, now: Time)
    requires Positive(b) && Inv(b, st) && Queued(st.cache.order, st.arrived, |st.log|)
    ensures var p := Put(Expire(st.cache, now, b.ttl), id, now);
            Wf(p) && Queued(p.order, Apply(b, st, Tag(id, now)).arrived, |st.log| + 1)
  {
    var e := Expire(st.cache, now, b.ttl);
    ExpireWf(st.cache, now, b.ttl);
    PutWf(e, id, now);
    KeepQueued(st.cache.order, st.cache.items, now, b.ttl, st.arrived, |st.log|);
    PutQueued(e, id, now, st.arrived, |st.log|);
  }

  lemma LongestLeaves(p: Cache, maxSize: int, victim: string, arrived: map<string, nat>, n: nat)
    requires Wf(p) && Queued(p.order, arrived, n) && victim in p.items && victim !in Shrink(p, maxSize).items
    ensures Shrink(p, maxSize).items == p.items - {victim} && victim in arrived
    ensures forall x | x in p.items && x != victim :: x in arrived && arrived[victim] < arrived[x]
  {
    VictimIsHead(p, maxSize, victim);
    HeadIsLongest(p, arrived, n);
  }

  lemma VictimIsHead(p: Cache, maxSize: int, victim: string)
    requires Wf(p) && victim in p.items && victim !in Shrink(p, maxSize).items
    ensures p.order != [] && victim == p.order[0] && Shrink(p, maxSize).items == p.items - {victim}
  {
  }

  lemma HeadIsLongest(p: Cache, arrived: map<string, nat>, n: nat)
    requires Wf(p) && Queued(p.order, arrived, n) && p.order != []
    ensures p.order[0] in arrived
    ensures forall x | x in p.items && x != p.order[0] :: x in arrived && arrived[p.order[0]] < arrived[x]
  {
    forall x | x in p.items && x != p.order[0]
      ensures x in arrived && arrived[p.order[0]] < arrived[x]
    {
      assert x in p.order;
      var i :| 0 <= i < |p.order| && p.order[i] == x;
    }
  }

  /** With every live id resident, Seen says exactly what the unbounded log would. */
  lemma SeenIsExact(b: Bounds, st: State, id: string, now: Time, later: Time)
    requires Inv(b, st) && Complete(b, st) && st.now <= now <= later
    ensures Answer(b, st, id, now, later) <==> Live(st.log, id, later, b.ttl)
  {
  }

  /** After the expiry and the insertion of a mark, the resident ids are the live ones. */
  lemma ResidentIsLive(b: Bounds, st: State, id: string, now: Time)
    requires Positive(b) && Inv(b, st) && Complete(b, st) && st.now <= now
    ensures var p := Put(Expire(st.cache, now, b.ttl), id, now);
            p.items.Keys == LiveIds(st.log + [Marked(id, now)], now, b.ttl)
  {
    var p, log := Put(Expire(st.cache, now, b.ttl), id, now), st.log + [Marked(id, now)];
    forall x
      ensures x in p.items.Keys <==> x in LiveIds(log, now, b.ttl)
    {
      LastMarkSnoc(st.log, Marked(id, now), x);
      LastMarkInLog(log, x);
      assert x in LiveIds(log, now, b.ttl) <==> Live(log, x, now, b.ttl);
    }
  }

  /** A mark keeps every live id resident exactly when the live ids fit the capacity. */
  lemma ExactWhileLiveFits(b: Bounds, st: State, id: string, now: Time)
    requires Positive(b) && Inv(b, st) && Complete(b, st) && st.now <= now
    ensures Complete(b, Apply(b, st, Tag(id, now)))
            <==> |LiveIds(st.log + [Marked(id, now)], now, b.ttl)| <= b.maxSize
  {
    var st', p := Apply(b, st, Tag(id, now)), Put(Expire(st.cache, now, b.ttl), id, now);
    ResidentIsLive(b, st, id, now);
    ExpireWf(st.cache, now, b.ttl);
    PutWf(Expire(st.cache, now, b.ttl), id, now);
    ShrinkWf(p, b.maxSize);
    forall x ensures Live(st'.log, x, now, b.ttl) <==> x in p.items {
      LastMarkInLog(st'.log, x);
      assert x in LiveIds(st'.log, now, b.ttl) <==> Live(st'.log, x, now, b.ttl);
    }
    if |p.items| > b.maxSize {
      var victim := p.order[0];
      assert victim in p.order;
      assert victim !in st'.cache.items;
    }
  }

  // ---------------------------------------------------------------- whole runs

  function Run(b: Bounds, ops: seq<Op>, start: Time): State {
    if ops == [] then State(EMPTY, [], map[], start) else Apply(b, Run(b, ops[..|ops| - 1], start), ops[|ops| - 1])
  }

  /** The clock never runs back, and whenever an id is marked the live ids fit the capacity. */
  ghost predicate Roomy(b: Bounds, ops: seq<Op>, start: Time) {
    ops == [] ||
    var before, op := ops[..|ops| - 1], ops[|ops| - 1];
    var st := Run(b, before, start);
    && Roomy(b, before, start) && st.now <= op.now
    && (op.Tag? ==> |LiveIds(st.log + [Marked(op.id, op.now)], op.now, b.ttl)| <= b.maxSize)
  }

  lemma {:induction false} RunInv(b: Bounds, ops: seq<Op>, start: Time)
    requires Positive(b)
    ensures Inv(b, Run(b, ops, start))
    ensures Queued(Run(b, ops, start).cache.order, Run(b, ops, start).arrived, |Run(b, ops, start).log|)
  {
    if ops != [] {
      RunInv(b, ops[..|ops| - 1], start);
      StepInv(b, Run(b, ops[..|ops| - 1], start), ops[|ops| - 1]);
      StepQueued(b, Run(b, ops[..|ops| - 1], start), ops[|ops| - 1]);
    }
  }

  /** The clock never runs back. */
  predicate Forward(b: Bounds, ops: seq<Op>, start: Time) {
    ops == [] ||
    (Forward(b, ops[..|ops| - 1], start) && Run(b, ops[..|ops| - 1], start).now <= ops[|ops| - 1].now)
  }

  /** What Seen would say of every id right now is what the unbounded log says. */
  ghost predicate Exact(b: Bounds, st: State) {
    forall id: string :: Answer(b, st, id, st.now, st.now) <==> Live(st.log, id, st.now, b.ttl)
  }

  /** Seen is exact after every operation of the run. */
  ghost predicate AlwaysExact(b: Bounds, ops: seq<Op>, start: Time) {
    Exact(b, Run(b, ops, start)) && (ops == [] || AlwaysExact(b, ops[..|ops| - 1], start))
  }

  lemma ExactIsComplete(b: Bounds, st: State)
    requires Inv(b, st)
    ensures Exact(b, st) <==> Complete(b, st)
  {
    if Exact(b, st) {
      forall id: string | Live(st.log, id, st.now, b.ttl)
        ensures id in st.cache.items
      {
        assert Answer(b, st, id, st.now, st.now);
      }
    }
  }

  lemma LookKeepsComplete(b: Bounds, st: State, id: string, now: Time)
    requires Inv(b, st) && Complete(b, st) && st.now <= now
    ensures Complete(b, Apply(b, st, Look(id, now)))
  {
  }

  /** Over every run of a clock that does not run back, Seen is exact throughout exactly if the live ids always fit. */
  lemma {:induction false} ExactExactlyWhenRoomy(b: Bounds, ops: seq<Op>, start: Time)
    requires Positive(b) && Forward(b, ops, start)
    ensures AlwaysExact(b, ops, start) <==> Roomy(b, ops, start)
  {
    RunInv(b, ops, start);
    ExactIsComplete(b, Run(b, ops, start));
    if ops == [] {
      assert forall id: string :: LastMark([], id) == Never;
    } else {
      var before, op := ops[..|ops| - 1], ops[|ops| - 1];
      ExactExactlyWhenRoomy(b, before, start);
      if AlwaysExact(b, before, start) {
        LastExact(b, Run(b, before, start), op, before, start);
      }
    }
  }

  lemma LastExact(b: Bounds, st: State, op: Op, before: seq<Op>, start: Time)
    requires Positive(b) && st == Run(b, before, start) && Exact(b, st) && st.now <= op.now
    ensures Complete(b, Apply(b, st, op)) <==>
            (op.Tag? ==> |LiveIds(st.log + [Marked(op.id, op.now)], op.now, b.ttl)| <= b.maxSize)
  {
    RunInv(b, before, start);
    ExactIsComplete(b, st);
    match op
    case Look(id, now) => LookKeepsComplete(b, st, id, now);
    case Tag(id, now) => ExactWhileLiveFits(b, st, id, now);
  }

  lemma {:induction false} RoomyForward(b: Bounds, ops: seq<Op>, start: Time)
    requires Roomy(b, ops, start)
    ensures Forward(b, ops, start)
  {
    if ops != [] {
      RoomyForward(b, ops[..|ops| - 1], start);
    }
  }

  lemma RoomyComplete(b: Bounds, ops: seq<Op>, start: Time)
    requires Positive(b) && Roomy(b, ops, start)
    ensures Complete(b, Run(b, ops, start))
  {
    RoomyForward(b, ops, start);
    ExactExactlyWhenRoomy(b, ops, start);
    RunInv(b, ops, start);
    ExactIsComplete(b, Run(b, ops, start));
  }

  /**
   * Over every run: Seen is never wrong about an id it accepts; and as long as the live ids
   * have always fitted the capacity, it answers exactly as the unbounded log of marks.
   */
  lemma SeenAgreesWithLog(b: Bounds, ops: seq<Op>, start: Time, id: string, now: Time, later: Time)
    requires Positive(b) && Run(b, ops, start).now <= now <= later
    ensures Answer(b, Run(b, ops, start), id, now, later) ==> Live(Run(b, ops, start).log, id, later, b.ttl)
    ensures Roomy(b, ops, start) ==>
              (Answer(b, Run(b, ops, start), id, now, later) <==> Live(Run(b, ops, start).log, id, later, b.ttl))
  {
    RunInv(b, ops, start);
    if Roomy(b, ops, start) {
      RoomyComplete(b, ops, start);
      SeenIsExact(b, Run(b, ops, start), id, now, later);
    }
  }
}
