/** From capture to flush: the bounded capturer's channel and the ticker flusher that empties it. */
module Flush {

  // ---------------------------------------------------------------- the flusher

  /** What the flusher has buffered and what it has handed off, in order. */
  datatype Flow<T> = Flow(buf: seq<T>, batches: seq<seq<T>>, running: bool)

  /** What a select of the event loop may yield. */
  datatype Event<T> = Item(x: T) | Closed | Ticked | Done

  function Flushed<T>(f: Flow<T>): Flow<T> {
    if f.buf == [] then f else f.(buf := [], batches := f.batches + [f.buf])
  }

  function Consume<T>(f: Flow<T>, e: Event<T>, batchSize: nat): Flow<T> {
    if !f.running then f
    else
      match e
      case Item(x) =>
        var g := f.(buf := f.buf + [x]);
        if |g.buf| >= batchSize then Flushed(g) else g
      case Ticked => Flushed(f)
      case Closed => Flushed(f).(running := false)
      case Done => Flushed(f).(running := false)
  }

  function ConsumeAll<T>(f: Flow<T>, es: seq<Event<T>>, batchSize: nat): Flow<T> {
    if es == [] then f else Consume(ConsumeAll(f, es[..|es| - 1], batchSize), es[|es| - 1], batchSize)
  }

  function Concat<T>(bs: seq<seq<T>>): seq<T> {
    if bs == [] then [] else Concat(bs[..|bs| - 1]) + bs[|bs| - 1]
  }

  ghost predicate Bounded<T>(f: Flow<T>, batchSize: nat) {
    && |f.buf| < batchSize && (!f.running ==> f.buf == [])
    && forall b | b in f.batches :: 0 < |b| <= batchSize
  }

  lemma ConcatSnoc<T>(bs: seq<seq<T>>, b: seq<T>)
    ensures Concat(bs + [b]) == Concat(bs) + b
  {
    assert (bs + [b])[..|bs|] == bs;
  }

  lemma FlushedKeeps<T>(f: Flow<T>)
    ensures Concat(Flushed(f).batches) + Flushed(f).buf == Concat(f.batches) + f.buf
    ensures f.batches <= Flushed(f).batches && Flushed(f).buf == []
  {
    if f.buf != [] {
      ConcatSnoc(f.batches, f.buf);
    }
  }

  /** One event keeps the batches already handed off, bounds the new ones, and adds exactly the item received. */
  lemma ConsumeKeeps<T>(f: Flow<T>, e: Event<T>, batchSize: nat)
    requires Bounded(f, batchSize)
    ensures var g := Consume(f, e, batchSize);
            && Bounded(g, batchSize) && f.batches <= g.batches
            && Concat(g.batches) + g.buf == Concat(f.batches) + f.buf + (if f.running && e.Item? then [e.x] else [])
  {
    if e.Item? && f.running {
      AppendKeeps(f, e.x, batchSize);
    } else {
      FlushedKeeps(f);
    }
  }

  lemma AppendKeeps<T>(f: Flow<T>, x: T, batchSize: nat)
    requires Bounded(f, batchSize) && f.running
    ensures var g := Consume(f, Item(x), batchSize);
            && Bounded(g, batchSize) && f.batches <= g.batches
            && Concat(g.batches) + g.buf == Concat(f.batches) + f.buf + [x]
  {
    FlushedKeeps(f.(buf := f.buf + [x]));
    assert Concat(f.batches) + (f.buf + [x]) == Concat(f.batches) + f.buf + [x];
  }

  /** A tick hands off whatever is buffered and leaves the flusher running. */
  lemma TickFlushes<T>(f: Flow<T>, batchSize: nat)
    requires f.running
    ensures var g := Consume(f, Ticked, batchSize);
            && g.running && g.buf == []
            && g.batches == f.batches + (if f.buf == [] then [] else [f.buf])
  {
  }

  /** The closed input and the cancellation hand off whatever is buffered and stop the flusher for good. */
  lemma EndFlushes<T>(f: Flow<T>, e: Event<T>, batchSize: nat)
    requires f.running && (e.Closed? || e.Done?)
    ensures var g := Consume(f, e, batchSize);
            && !g.running && g.buf == []
            && g.batches == f.batches + (if f.buf == [] then [] else [f.buf])
            && forall later :: Consume(g, later, batchSize) == g
  {
  }

  /** An item waits in the buffer, or it is the last of a batch of exactly the batch size. */
  lemma ItemsFillBatches<T>(f: Flow<T>, x: T, batchSize: nat)
    requires Bounded(f, batchSize) && f.running
    ensures var g := Consume(f, Item(x), batchSize);
            && g.running
            && (|f.buf| + 1 < batchSize ==> g.buf == f.buf + [x] && g.batches == f.batches)
            && (|f.buf| + 1 == batchSize ==> g.buf == [] && g.batches == f.batches + [f.buf + [x]])
  {
  }

  // ---------------------------------------------------------------- in place

  /** RunTickerFlush's state: one buffer, reused after every flush, and the copies handed off. */
  class TickerFlush<T(0)> {
    const batchSize: nat
    const buf: array<T>
    var len: nat
    var running: bool
    var batches: seq<array<T>>

    ghost predicate Valid()
      reads this
    {
      buf.Length == batchSize && len < batchSize && (!running ==> len == 0) && buf !in batches
    }

    ghost function View(): Flow<T>
      requires Valid()
      reads this, buf, batches
    {
      Flow(buf[..len], Contents(batches), running)
    }

    constructor (batchSize: int)
      ensures Valid() && View() == Flow([], [], true)
      ensures this.batchSize == if batchSize <= 0 then 50 else batchSize
    {
      this.batchSize := if batchSize <= 0 then 50 else batchSize;
      buf := new T[if batchSize <= 0 then 50 else batchSize];
      len, running, batches := 0, true, [];
    }

    /** flushBuf: the batch handed off is a copy, since the buffer is about to be reused. */
    method FlushBuf()
      requires buf.Length == batchSize && 0 < batchSize && len <= batchSize && buf !in batches
      modifies this`len, this`batches
      ensures buf !in batches && len == 0
      ensures old(batches) <= batches
      ensures Contents(batches) == Contents(old(batches)) + if old(len) == 0 then [] else [buf[..old(len)]]
    {
      if len == 0 {
        return;
      }
      var batch := new T[len](i requires 0 <= i < len <= buf.Length reads this, buf => buf[i]);
      assert batch[..] == buf[..len];
      ContentsSnoc(batches, batch);
      len := 0;
      batches := batches + [batch];
    }

    /** One turn of the event loop. */
    method Turn(e: Event<T>)
      requires Valid() && running
      modifies this, buf
      ensures Valid() && old(batches) <= batches
      ensures View() == Consume(old(View()), e, batchSize)
    {
      ghost var f := View();
      match e
      case Done =>
        FlushBuf();
        running := false;
      case Ticked =>
        FlushBuf();
      case Closed =>
        FlushBuf();
        running := false;
      case Item(x) =>
        buf[len] := x;
        len := len + 1;
        assert buf[..len] == f.buf + [x];
        assert Contents(batches) == f.batches;
        if len >= batchSize {
          FlushBuf();
        }
    }

    /** RunTickerFlush over the outcomes of its selects. */
    method Loop(es: seq<Event<T>>)
      requires Valid() && running
      modifies this, buf
      ensures Valid() && old(batches) <= batches
      ensures View() == ConsumeAll(old(View()), es, batchSize)
    {
      ghost var f := View();
      for i := 0 to |es|
        invariant Valid() && running && old(batches) <= batches
        invariant View() == ConsumeAll(f, es[..i], batchSize)
      {
        assert es[..i + 1][..i] == es[..i];
        Turn(es[i]);
        if !running {
          StoppedStays(f, es, i + 1, batchSize);
          return;
        }
      }
      assert es[..|es|] == es;
    }
  }

  ghost function Contents<T>(bs: seq<array<T>>): seq<seq<T>>
    reads bs
  {
    seq(|bs|, i requires 0 <= i < |bs| reads bs => bs[i][..])
  }

  lemma ContentsSnoc<T>(bs: seq<array<T>>, b: array<T>)
    ensures Contents(bs + [b]) == Contents(bs) + [b[..]]
  {
  }

  lemma {:induction false} StoppedStays<T>(f: Flow<T>, es: seq<Event<T>>, k: nat, batchSize: nat)
    requires k <= |es| && !ConsumeAll(f, es[..k], batchSize).running
    ensures ConsumeAll(f, es, batchSize) == ConsumeAll(f, es[..k], batchSize)
    decreases |es| - k
  {
    if k == |es| {
      assert es[..k] == es;
    } else {
      assert es[..k + 1][..k] == es[..k];
      StoppedStays(f, es, k + 1, batchSize);
    }
  }

  // ---------------------------------------------------------------- capture

  /** The capturer's channel and drop counter. */
  class Capturer<T> {
    const capacity: nat
    const prep: T -> T
    var ch: seq<T>
    var dropped: nat

    constructor (capacity: nat, prep: T -> T)
      ensures this.capacity == capacity && this.prep == prep && ch == [] && dropped == 0
    {
      this.capacity, this.prep := capacity, prep;
      ch, dropped := [], 0;
    }

    /** TryCapture never blocks: a full channel counts a drop. */
    method TryCapture(ev: T) returns (accepted: bool)
      modifies this`ch, this`dropped
      ensures accepted <==> |old(ch)| < capacity
      ensures ch == old(ch) + if accepted then [prep(ev)] else []
      ensures dropped == old(dropped) + if accepted then 0 else 1
    {
      var e := prep(ev);
      if |ch| < capacity {
        ch := ch + [e];
        return true;
      }
      dropped := dropped + 1;
      return false;
    }
  }

  // ---------------------------------------------------------------- producers and flusher together

  datatype Setup<!T> = Setup(capacity: nat, batchSize: nat, prep: T -> T)

  /** The channel, whether it was closed, the flusher, and the history of captures. */
  datatype State<T> = State(queue: seq<T>, closed: bool, flow: Flow<T>, accepted: seq<T>, attempts: nat, dropped: nat)

  /** What may happen next: a producer captures or closes the channel, or a select of the flusher fires. */
  datatype Step<T> = Capture(ev: T) | Close | Tick | Receive | Cancel

  function Initial<T>(): State<T> {
    State([], false, Flow([], [], true), [], 0, 0)
  }

  function Apply<T>(u: Setup<T>, st: State<T>, s: Step<T>): State<T> {
    match s
    case Capture(ev) =>
      if st.closed then st
      else if |st.queue| < u.capacity then
        st.(queue := st.queue + [u.prep(ev)], accepted := st.accepted + [u.prep(ev)], attempts := st.attempts + 1)
      else st.(attempts := st.attempts + 1, dropped := st.dropped + 1)
    case Close => st.(closed := true)
    case Tick => st.(flow := Consume(st.flow, Ticked, u.batchSize))
    case Cancel => st.(flow := Consume(st.flow, Done, u.batchSize))
    case Receive =>
      if !st.flow.running then st
      else if st.queue != [] then
        st.(queue := st.queue[1..], flow := Consume(st.flow, Item(st.queue[0]), u.batchSize))
      else if st.closed then st.(flow := Consume(st.flow, Closed, u.batchSize))
      else st
  }

  function Run<T>(u: Setup<T>, steps: seq<Step<T>>): State<T> {
    if steps == [] then Initial() else Apply(u, Run(u, steps[..|steps| - 1]), steps[|steps| - 1])
  }

  /** Everything accepted is, in order, in the batches, the buffer and the channel; everything else was counted. */
  ghost predicate Conserved<T>(u: Setup<T>, st: State<T>) {
    && Concat(st.flow.batches) + st.flow.buf + st.queue == st.accepted
    && |st.accepted| + st.dropped == st.attempts
    && |st.queue| <= u.capacity && Bounded(st.flow, u.batchSize)
  }

  lemma CaptureConserves<T>(u: Setup<T>, st: State<T>, ev: T)
    requires Conserved(u, st)
    ensures Conserved(u, Apply(u, st, Capture(ev)))
  {
    var sent := Concat(st.flow.batches) + st.flow.buf;
    assert sent + (st.queue + [u.prep(ev)]) == (sent + st.queue) + [u.prep(ev)];
  }

  lemma ReceiveConserves<T>(u: Setup<T>, st: State<T>)
    requires Conserved(u, st)
    ensures Conserved(u, Apply(u, st, Receive)) && st.flow.batches <= Apply(u, st, Receive).flow.batches
  {
    if st.flow.running && st.queue != [] {
      var sent, x, rest := Concat(st.flow.batches) + st.flow.buf, st.queue[0], st.queue[1..];
      ConsumeKeeps(st.flow, Item(x), u.batchSize);
      assert st.queue == [x] + rest;
      assert sent + ([x] + rest) == (sent + [x]) + rest;
    } else {
      EventConserves(u, st, Closed);
    }
  }

  /** An event without an item moves nothing out of the sum. */
  lemma EventConserves<T>(u: Setup<T>, st: State<T>, e: Event<T>)
    requires Conserved(u, st) && !e.Item?
    ensures var st' := st.(flow := Consume(st.flow, e, u.batchSize));
            Conserved(u, st') && st.flow.batches <= st'.flow.batches
  {
    ConsumeKeeps(st.flow, e, u.batchSize);
    var sent := Concat(st.flow.batches) + st.flow.buf;
    assert sent + [] == sent;
  }

  lemma StepConserves<T>(u: Setup<T>, st: State<T>, s: Step<T>)
    requires Conserved(u, st)
    ensures Conserved(u, Apply(u, st, s)) && st.flow.batches <= Apply(u, st, s).flow.batches
  {
    match s
    case Capture(ev) => CaptureConserves(u, st, ev);
    case Close =>
    case Tick => EventConserves(u, st, Ticked);
    case Cancel => EventConserves(u, st, Done);
    case Receive => ReceiveConserves(u, st);
  }

  /** Capture to flush loses nothing silently, over every interleaving. */
  lemma {:induction false} RunConserves<T>(u: Setup<T>, steps: seq<Step<T>>)
    requires u.batchSize > 0
    ensures Conserved(u, Run(u, steps))
  {
    if steps != [] {
      RunConserves(u, steps[..|steps| - 1]);
      StepConserves(u, Run(u, steps[..|steps| - 1]), steps[|steps| - 1]);
    }
  }

  /** After a tick everything accepted has been handed off or is still in the channel. */
  lemma TickedFlushed<T>(u: Setup<T>, steps: seq<Step<T>>)
    requires u.batchSize > 0
    ensures var st := Run(u, steps + [Tick]);
            && st.flow.buf == [] && Concat(st.flow.batches) + st.queue == st.accepted
            && st.queue == Run(u, steps).queue && st.accepted == Run(u, steps).accepted
            && st.flow.running == Run(u, steps).flow.running
  {
    assert (steps + [Tick])[..|steps|] == steps;
    RunConserves(u, steps);
    RunConserves(u, steps + [Tick]);
    var st := Run(u, steps + [Tick]);
    assert Concat(st.flow.batches) + [] == Concat(st.flow.batches);
  }

  predicate Receives<T>(s: Step<T>) {
    s.Capture? || s.Close? || s.Receive?
  }

  /** Without a tick or a cancellation, and until the channel is closed, only full batches leave. */
  lemma {:induction false} FullBatchesBetweenTicks<T>(u: Setup<T>, steps: seq<Step<T>>)
    requires u.batchSize > 0 && forall i | 0 <= i < |steps| :: Receives(steps[i])
    ensures var st := Run(u, steps);
            st.flow.running ==> forall b | b in st.flow.batches :: |b| == u.batchSize
  {
    if steps != [] {
      var before, s := steps[..|steps| - 1], steps[|steps| - 1];
      FullBatchesBetweenTicks(u, before);
      RunConserves(u, before);
      assert Receives(s);
      var st := Run(u, before);
      if s.Receive? && st.flow.running && st.queue != [] {
        ItemsFillBatches(st.flow, st.queue[0], u.batchSize);
      }
    }
  }

  /** A flusher stopped by its closed input has flushed everything; stopped by cancellation, all but the channel. */
  lemma StoppedFlushed<T>(u: Setup<T>, steps: seq<Step<T>>)
    requires u.batchSize > 0 && !Run(u, steps).flow.running
    ensures var st := Run(u, steps);
            && Concat(st.flow.batches) + st.queue == st.accepted
            && (Concat(st.flow.batches) == st.accepted <==> st.queue == [])
  {
    RunConserves(u, steps);
    var st := Run(u, steps);
    assert Concat(st.flow.batches) + [] == Concat(st.flow.batches);
    assert |Concat(st.flow.batches) + st.queue| == |Concat(st.flow.batches)| + |st.queue|;
  }

  /** Without a cancellation the flusher stops only on a closed and drained channel, and then nothing is left behind. */
  lemma {:induction false} ClosedMeansDrained<T>(u: Setup<T>, steps: seq<Step<T>>)
    requires u.batchSize > 0 && Cancel !in steps
    ensures var st := Run(u, steps);
            !st.flow.running ==> st.closed && st.queue == [] && Concat(st.flow.batches) == st.accepted
  {
    if steps != [] {
      var before, s := steps[..|steps| - 1], steps[|steps| - 1];
      ClosedMeansDrained(u, before);
      assert s in steps;
      if !Run(u, steps).flow.running {
        StoppedFlushed(u, steps);
      }
    }
  }
}
