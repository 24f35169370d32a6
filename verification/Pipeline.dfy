/**
 * The worker pool's bookkeeping: any number of producers and workers on one bounded task channel,
 * each atomic counter update a step of its own.
 */
module Pipeline {

  /** The reject counters of a round. */
  datatype Counter =
    | Geo | HardRejected | Dedup | MX | Blacklist | IntelOnly | LanderNoBuyer | GitHubVendor | TelegramSpam
    | LowPriority | ICP | Intent | Lang | Context | Contact | NoContacts | NoReachableContact | EmailNoContext
    | RoleEmail | EmptyHash | StoreError | Dropped

  const ALL: seq<Counter> := [
    Geo, HardRejected, Dedup, MX, Blacklist, IntelOnly, LanderNoBuyer, GitHubVendor, TelegramSpam,
    LowPriority, ICP, Intent, Lang, Context, Contact, NoContacts, NoReachableContact, EmailNoContext,
    RoleEmail, EmptyHash, StoreError, Dropped]

  datatype Lead = Lead(id: string, priority: string)

  /** What the processor says about a task. */
  datatype Outcome = Outcome(geo: bool, hard: bool, dedup: bool, mx: bool, accepted: bool, reason: string, lead: Lead)

  predicate Passed(o: Outcome) {
    !o.geo && !o.hard && !o.dedup && !o.mx && o.accepted
  }

  /** The reason `process` gives for an outcome it does not accept, first flag first. */
  function Reason(o: Outcome): string {
    if o.geo then "geo"
    else if o.hard then "hard_reject"
    else if o.dedup then "dedup"
    else if o.mx then "mx"
    else if o.reason == "" then "dropped"
    else o.reason
  }

  /** The counter recordRoundReject bumps: two reasons share another's, and an unknown one is a drop. */
  function Bucket(reason: string): Counter {
    match reason
    case "geo" => Geo
    case "hard_reject" => HardRejected
    case "dedup" => Dedup
    case "mx" => MX
    case "blacklist" => Blacklist
    case "intel_only" => IntelOnly
    case "lander_no_buyer_signal" => LanderNoBuyer
    case "github_vendor" => GitHubVendor
    case "telegram_spam" => TelegramSpam
    case "low_priority" => LowPriority
    case "icp" => ICP
    case "intent" => Intent
    case "lang" => Lang
    case "context" => Context
    case "author_seller" => Context
    case "instant_drop" => HardRejected
    case "contact" => Contact
    case "no_contacts" => NoContacts
    case "no_reachable_contact" => NoReachableContact
    case "email_no_context" => EmailNoContext
    case "role_email" => RoleEmail
    case "empty_hash" => EmptyHash
    case "store_error" => StoreError
    case _ => Dropped
  }

  type Counters = map<Counter, nat>

  function Get(c: Counters, b: Counter): nat {
    if b in c then c[b] else 0
  }

  function Bump(c: Counters, b: Counter): Counters {
    c[b := Get(c, b) + 1]
  }

  // ---------------------------------------------------------------- the round

  /** The channel's capacity, the number of workers, and the reject counter an outcome goes to. */
  datatype Pool = Pool(capacity: nat, workers: nat, fate: Outcome -> Counter)

  /** The pool as the code counts. */
  function CountingPool(capacity: nat, workers: nat): Pool {
    Pool(capacity, workers, (o: Outcome) => Bucket(Reason(o)))
  }

  /** Where a worker is in `process`. */
  datatype Phase =
    | Free
    | Holding                  // took a task, RawTotal not yet bumped
    | Running                  // RawTotal bumped, the processor at work
    | Ranking(lead: Lead)      // Accepted bumped, the priority counter not yet
    | Adding(lead: Lead)       // the priority counter bumped, the lead not yet listed

  /**
   * The channel's length, the workers and the shared counters; beside them the history no
   * code keeps: attempts to enqueue, full-channel drops, tasks skipped on cancellation, verdicts.
   */
  datatype Round = Round(
    queued: nat, workers: seq<Phase>, raw: nat, accepted: nat, high: nat, medium: nat, low: nat,
    rejects: Counters, leads: seq<Lead>,
    attempts: nat, full: nat, skipped: nat, verdicts: seq<Outcome>)

  datatype Step =
    | TryEnqueue
    | Take(w: nat)
    | Skip(w: nat)
    | Begin(w: nat)
    | Settle(w: nat, o: Outcome)
    | CountPriority(w: nat)
    | AddLead(w: nat)

  function Fresh(workers: nat): Round {
    Round(0, seq(workers, i => Free), 0, 0, 0, 0, 0, map[], [], 0, 0, 0, [])
  }

  predicate Enabled(r: Round, s: Step) {
    match s
    case TryEnqueue => true
    case Take(w) => w < |r.workers| && r.workers[w].Free? && r.queued > 0
    case Skip(w) => w < |r.workers| && r.workers[w].Holding?
    case Begin(w) => w < |r.workers| && r.workers[w].Holding?
    case Settle(w, o) => w < |r.workers| && r.workers[w].Running?
    case CountPriority(w) => w < |r.workers| && r.workers[w].Ranking?
    case AddLead(w) => w < |r.workers| && r.workers[w].Adding?
  }

  function Apply(pool: Pool, r: Round, s: Step): Round {
    if !Enabled(r, s) then r else
    match s
    case TryEnqueue =>
      if r.queued < pool.capacity then r.(queued := r.queued + 1, attempts := r.attempts + 1)
      else r.(rejects := Bump(r.rejects, Dropped), full := r.full + 1, attempts := r.attempts + 1)
    case Take(w) => r.(queued := r.queued - 1, workers := r.workers[w := Holding])
    case Skip(w) => r.(workers := r.workers[w := Free], skipped := r.skipped + 1)
    case Begin(w) => r.(workers := r.workers[w := Running], raw := r.raw + 1)
    case Settle(w, o) =>
      if Passed(o)
      then r.(workers := r.workers[w := Ranking(o.lead)], accepted := r.accepted + 1, verdicts := r.verdicts + [o])
      else r.(workers := r.workers[w := Free], rejects := Bump(r.rejects, pool.fate(o)), verdicts := r.verdicts + [o])
    case CountPriority(w) =>
      var lead := r.workers[w].lead;
      var r' := r.(workers := r.workers[w := Adding(lead)]);
      if lead.priority == "High" then r'.(high := r.high + 1)
      else if lead.priority == "Medium" then r'.(medium := r.medium + 1)
      else r'.(low := r.low + 1)
    case AddLead(w) => r.(workers := r.workers[w := Free], leads := r.leads + [r.workers[w].lead])
  }

  function Run(pool: Pool, steps: seq<Step>): Round {
    if steps == [] then Fresh(pool.workers) else Apply(pool, Run(pool, steps[..|steps| - 1]), steps[|steps| - 1])
  }

  // ---------------------------------------------------------------- what adds up

  function Count(p: Phase -> bool, ws: seq<Phase>): nat {
    if ws == [] then 0 else Count(p, ws[..|ws| - 1]) + if p(ws[|ws| - 1]) then 1 else 0
  }

  lemma {:induction false} CountUpdate(p: Phase -> bool, ws: seq<Phase>, w: nat, ph: Phase)
    requires w < |ws|
    ensures Count(p, ws[w := ph]) == Count(p, ws) - (if p(ws[w]) then 1 else 0) + if p(ph) then 1 else 0
  {
    var n := |ws| - 1;
    if w == n {
      assert ws[w := ph][..n] == ws[..n];
    } else {
      CountUpdate(p, ws[..n], w, ph);
      assert ws[w := ph][..n] == ws[..n][w := ph];
    }
  }

  lemma {:induction false} CountNone(p: Phase -> bool, ws: seq<Phase>)
    requires forall i | 0 <= i < |ws| :: !p(ws[i])
    ensures Count(p, ws) == 0
  {
    if ws != [] {
      CountNone(p, ws[..|ws| - 1]);
    }
  }

  function IsHolding(ph: Phase): bool { ph.Holding? }
  function IsRunning(ph: Phase): bool { ph.Running? }
  function IsRanking(ph: Phase): bool { ph.Ranking? }
  function IsAdding(ph: Phase): bool { ph.Adding? }

  /** Tasks: every attempt is queued, taken, started, dropped or skipped; every start has a verdict or is under way. */
  predicate TasksAddUp(r: Round) {
    && r.attempts == r.queued + Count(IsHolding, r.workers) + r.raw + r.full + r.skipped
    && r.raw == |r.verdicts| + Count(IsRunning, r.workers)
    && r.accepted == Accepted(r.verdicts)
  }

  function Accepted(os: seq<Outcome>): nat {
    if os == [] then 0 else Accepted(os[..|os| - 1]) + if Passed(os[|os| - 1]) then 1 else 0
  }

  /** Leads: every accepted lead has its priority counted and is listed, unless its worker is not there yet. */
  predicate LeadsAddUp(r: Round) {
    && r.accepted == r.high + r.medium + r.low + Count(IsRanking, r.workers)
    && r.accepted == |r.leads| + Count(IsRanking, r.workers) + Count(IsAdding, r.workers)
  }

  function One(b: bool): nat {
    if b then 1 else 0
  }

  lemma PhaseCounts(ws: seq<Phase>, w: nat, ph: Phase)
    requires w < |ws|
    ensures Count(IsHolding, ws[w := ph]) == Count(IsHolding, ws) - One(ws[w].Holding?) + One(ph.Holding?)
    ensures Count(IsRunning, ws[w := ph]) == Count(IsRunning, ws) - One(ws[w].Running?) + One(ph.Running?)
    ensures Count(IsRanking, ws[w := ph]) == Count(IsRanking, ws) - One(ws[w].Ranking?) + One(ph.Ranking?)
    ensures Count(IsAdding, ws[w := ph]) == Count(IsAdding, ws) - One(ws[w].Adding?) + One(ph.Adding?)
  {
    CountUpdate(IsHolding, ws, w, ph);
    CountUpdate(IsRunning, ws, w, ph);
    CountUpdate(IsRanking, ws, w, ph);
    CountUpdate(IsAdding, ws, w, ph);
  }

  lemma AcceptedSnoc(os: seq<Outcome>, o: Outcome)
    ensures Accepted(os + [o]) == Accepted(os) + if Passed(o) then 1 else 0
  {
    assert (os + [o])[..|os|] == os;
  }

  lemma SettleTasks(pool: Pool, r: Round, w: nat, o: Outcome)
    requires TasksAddUp(r) && Enabled(r, Settle(w, o))
    ensures TasksAddUp(Apply(pool, r, Settle(w, o)))
  {
    PhaseCounts(r.workers, w, if Passed(o) then Ranking(o.lead) else Free);
    AcceptedSnoc(r.verdicts, o);
  }

  /** Every step of every producer and worker keeps the sums of tasks. */
  lemma StepTasks(pool: Pool, r: Round, s: Step)
    requires TasksAddUp(r)
    ensures TasksAddUp(Apply(pool, r, s))
  {
    if Enabled(r, s) {
      match s
      case TryEnqueue =>
      case Take(w) => PhaseCounts(r.workers, w, Holding);
      case Skip(w) => PhaseCounts(r.workers, w, Free);
      case Begin(w) => PhaseCounts(r.workers, w, Running);
      case Settle(w, o) => SettleTasks(pool, r, w, o);
      case CountPriority(w) => PhaseCounts(r.workers, w, Adding(r.workers[w].lead));
      case AddLead(w) => PhaseCounts(r.workers, w, Free);
    }
  }

  lemma SettleLeads(pool: Pool, r: Round, w: nat, o: Outcome)
    requires LeadsAddUp(r) && Enabled(r, Settle(w, o))
    ensures LeadsAddUp(Apply(pool, r, Settle(w, o)))
  {
    PhaseCounts(r.workers, w, if Passed(o) then Ranking(o.lead) else Free);
  }

  /** And the sums of leads. */
  lemma StepLeads(pool: Pool, r: Round, s: Step)
    requires LeadsAddUp(r)
    ensures LeadsAddUp(Apply(pool, r, s))
  {
    if Enabled(r, s) {
      match s
      case TryEnqueue =>
      case Take(w) => PhaseCounts(r.workers, w, Holding);
      case Skip(w) => PhaseCounts(r.workers, w, Free);
      case Begin(w) => PhaseCounts(r.workers, w, Running);
      case Settle(w, o) => SettleLeads(pool, r, w, o);
      case CountPriority(w) => PhaseCounts(r.workers, w, Adding(r.workers[w].lead));
      case AddLead(w) => PhaseCounts(r.workers, w, Free);
    }
  }

  // ---------------------------------------------------------------- each counter on its own

  /** How many verdicts a reject counter stands for. */
  function Verdicts(fate: Outcome -> Counter, os: seq<Outcome>, b: Counter): nat {
    if os == [] then 0
    else Verdicts(fate, os[..|os| - 1], b) + if !Passed(os[|os| - 1]) && fate(os[|os| - 1]) == b then 1 else 0
  }

  /** Each counter is its verdicts; the drop counter also takes what the full channel refused. */
  ghost predicate CountersExact(pool: Pool, r: Round) {
    forall b: Counter :: Get(r.rejects, b) == Verdicts(pool.fate, r.verdicts, b) + if b == Dropped then r.full else 0
  }

  lemma VerdictsSnoc(fate: Outcome -> Counter, os: seq<Outcome>, o: Outcome, b: Counter)
    ensures Verdicts(fate, os + [o], b) == Verdicts(fate, os, b) + if !Passed(o) && fate(o) == b then 1 else 0
  {
    assert (os + [o])[..|os|] == os;
  }

  lemma StepExact(pool: Pool, r: Round, s: Step)
    requires CountersExact(pool, r)
    ensures CountersExact(pool, Apply(pool, r, s))
  {
    if Enabled(r, s) && s.Settle? {
      forall b: Counter
        ensures var r' := Apply(pool, r, s);
                Get(r'.rejects, b) == Verdicts(pool.fate, r'.verdicts, b) + if b == Dropped then r'.full else 0
      {
        VerdictsSnoc(pool.fate, r.verdicts, s.o, b);
      }
    }
  }

  function Total(f: Counter -> nat, names: seq<Counter>): nat {
    if names == [] then 0 else Total(f, names[..|names| - 1]) + f(names[|names| - 1])
  }

  lemma {:induction false} TotalMoves(f: Counter -> nat, g: Counter -> nat, b: Counter, step: nat, names: seq<Counter>)
    requires forall i, j :: 0 <= i < j < |names| ==> names[i] != names[j]
    requires forall c :: g(c) == f(c) + if c == b then step else 0
    ensures Total(g, names) == Total(f, names) + if b in names then step else 0
  {
    if names != [] {
      var before, last := names[..|names| - 1], names[|names| - 1];
      TotalMoves(f, g, b, step, before);
      assert names == before + [last];
      assert b == last ==> b !in before;
    }
  }

  lemma {:induction false} TotalZero(f: Counter -> nat, names: seq<Counter>)
    requires forall c :: f(c) == 0
    ensures Total(f, names) == 0
  {
    if names != [] {
      TotalZero(f, names[..|names| - 1]);
    }
  }

  predicate Once(names: seq<Counter>) {
    (forall i, j :: 0 <= i < j < |names| ==> names[i] != names[j]) && forall c: Counter :: c in names
  }

  lemma AllOnce()
    ensures Once(ALL)
  {
    forall i | 0 <= i < |ALL| ensures Position(ALL[i]) == i {}
    forall c: Counter ensures c in ALL {
      assert ALL[Position(c)] == c;
    }
  }

  function Position(c: Counter): nat {
    match c
    case Geo => 0 case HardRejected => 1 case Dedup => 2 case MX => 3 case Blacklist => 4 case IntelOnly => 5
    case LanderNoBuyer => 6 case GitHubVendor => 7 case TelegramSpam => 8 case LowPriority => 9 case ICP => 10
    case Intent => 11 case Lang => 12 case Context => 13 case Contact => 14 case NoContacts => 15
    case NoReachableContact => 16 case EmailNoContext => 17 case RoleEmail => 18 case EmptyHash => 19
    case StoreError => 20 case Dropped => 21
  }

  /** All counters together see every verdict that is not an acceptance, once. */
  lemma {:induction false} VerdictsTotal(fate: Outcome -> Counter, os: seq<Outcome>, names: seq<Counter>)
    requires Once(names)
    ensures Total(b => Verdicts(fate, os, b), names) == |os| - Accepted(os)
  {
    if os == [] {
      TotalZero(b => Verdicts(fate, os, b), names);
    } else {
      var before, o := os[..|os| - 1], os[|os| - 1];
      VerdictsTotal(fate, before, names);
      var step := if Passed(o) then 0 else 1;
      TotalMoves(b => Verdicts(fate, before, b), b => Verdicts(fate, os, b), fate(o), step, names);
    }
  }

  lemma RejectsTotal(pool: Pool, r: Round, names: seq<Counter>)
    requires Once(names) && CountersExact(pool, r)
    ensures Total(b => Get(r.rejects, b), names) == |r.verdicts| - Accepted(r.verdicts) + r.full
  {
    VerdictsTotal(pool.fate, r.verdicts, names);
    TotalMoves(b => Verdicts(pool.fate, r.verdicts, b), b => Get(r.rejects, b), Dropped, r.full, names);
  }

  // ---------------------------------------------------------------- whole runs

  lemma {:induction false} RunKeeps(pool: Pool, steps: seq<Step>)
    ensures var r := Run(pool, steps); TasksAddUp(r) && LeadsAddUp(r) && CountersExact(pool, r)
  {
    if steps == [] {
      NoneBusy(Fresh(pool.workers).workers);
    } else {
      RunKeeps(pool, steps[..|steps| - 1]);
      var r, s := Run(pool, steps[..|steps| - 1]), steps[|steps| - 1];
      StepTasks(pool, r, s);
      StepLeads(pool, r, s);
      StepExact(pool, r, s);
    }
  }

  lemma NoneBusy(ws: seq<Phase>)
    requires forall i | 0 <= i < |ws| :: ws[i].Free?
    ensures Count(IsHolding, ws) == Count(IsRunning, ws) == Count(IsRanking, ws) == Count(IsAdding, ws) == 0
  {
    CountNone(IsHolding, ws);
    CountNone(IsRunning, ws);
    CountNone(IsRanking, ws);
    CountNone(IsAdding, ws);
  }

  /**
   * Over every interleaving, at every moment: what was started plus what the full channel refused
   * is what was accepted, what the reject counters hold together, and what is in the processor.
   */
  lemma RunAddsUp(pool: Pool, steps: seq<Step>)
    ensures var r := Run(pool, steps);
            r.raw + r.full == r.accepted + Total(b => Get(r.rejects, b), ALL) + Count(IsRunning, r.workers)
  {
    RunKeeps(pool, steps);
    AllOnce();
    RejectsTotal(pool, Run(pool, steps), ALL);
  }

  predicate Quiet(r: Round) {
    r.queued == 0 && forall i | 0 <= i < |r.workers| :: r.workers[i].Free?
  }

  /** Once the round is quiet: accepted = high + medium + low = listed leads, and every attempt has one fate. */
  lemma QuietAddsUp(pool: Pool, steps: seq<Step>)
    requires Quiet(Run(pool, steps))
    ensures var r := Run(pool, steps);
            && r.accepted == r.high + r.medium + r.low == |r.leads|
            && r.attempts == r.raw + r.full + r.skipped
            && r.raw + r.full == r.accepted + Total(b => Get(r.rejects, b), ALL)
            && |r.verdicts| == r.raw
  {
    RunKeeps(pool, steps);
    RunAddsUp(pool, steps);
    NoneBusy(Run(pool, steps).workers);
  }

  // ---------------------------------------------------------------- the counters as the code names them

  /** The reasons with a counter other than Dropped. */
  const LISTED := {
    "geo", "hard_reject", "dedup", "mx", "blacklist", "intel_only", "lander_no_buyer_signal", "github_vendor",
    "telegram_spam", "low_priority", "icp", "intent", "lang", "context", "author_seller", "instant_drop", "contact",
    "no_contacts", "no_reachable_contact", "email_no_context", "role_email", "empty_hash", "store_error"}

  lemma DroppedMeaning(reason: string)
    ensures Bucket(reason) == Dropped <==> reason !in LISTED
  {
  }

  lemma SharedMeaning(reason: string)
    ensures Bucket(reason) == HardRejected <==> reason in {"hard_reject", "instant_drop"}
    ensures Bucket(reason) == Context <==> reason in {"context", "author_seller"}
  {
  }

  /** The unaccepted verdicts whose reason meets p. */
  function Rejected(p: string -> bool, os: seq<Outcome>): nat {
    if os == [] then 0
    else
      var o := os[|os| - 1];
      Rejected(p, os[..|os| - 1]) + if !Passed(o) && p(Reason(o)) then 1 else 0
  }

  lemma {:induction false} VerdictsByReason(pool: Pool, p: string -> bool, os: seq<Outcome>, b: Counter)
    requires forall o :: pool.fate(o) == Bucket(Reason(o))
    requires forall reason :: p(reason) == (Bucket(reason) == b)
    ensures Verdicts(pool.fate, os, b) == Rejected(p, os)
  {
    if os != [] {
      VerdictsByReason(pool, p, os[..|os| - 1], b);
    }
  }

  /**
   * A round of the pool as the code counts it: the sum of all counters, and of those that more than one reason
   * shares: hard rejects include instant drops, context rejects include author sellers, and Dropped holds every
   * unlisted reason together with the full channel's refusals.
   */
  lemma RoundCounts(capacity: nat, workers: nat, steps: seq<Step>)
    ensures var r := Run(CountingPool(capacity, workers), steps);
            && r.raw + r.full == r.accepted + Total(b => Get(r.rejects, b), ALL) + Count(IsRunning, r.workers)
            && Get(r.rejects, HardRejected) == Rejected(reason => reason in {"hard_reject", "instant_drop"}, r.verdicts)
            && Get(r.rejects, Context) == Rejected(reason => reason in {"context", "author_seller"}, r.verdicts)
            && Get(r.rejects, Dropped) == r.full + Rejected(reason => reason !in LISTED, r.verdicts)
            && (Quiet(r) ==> r.accepted == r.high + r.medium + r.low == |r.leads|)
            && (Quiet(r) ==> r.attempts == r.raw + r.full + r.skipped)
  {
    var pool := CountingPool(capacity, workers);
    var r := Run(pool, steps);
    RunKeeps(pool, steps);
    RunAddsUp(pool, steps);
    forall reason ensures (reason !in LISTED) == (Bucket(reason) == Dropped) {
      DroppedMeaning(reason);
    }
    forall reason
      ensures (reason in {"hard_reject", "instant_drop"}) == (Bucket(reason) == HardRejected)
      ensures (reason in {"context", "author_seller"}) == (Bucket(reason) == Context)
    {
      SharedMeaning(reason);
    }
    VerdictsByReason(pool, reason => reason in {"hard_reject", "instant_drop"}, r.verdicts, HardRejected);
    VerdictsByReason(pool, reason => reason in {"context", "author_seller"}, r.verdicts, Context);
    VerdictsByReason(pool, reason => reason !in LISTED, r.verdicts, Dropped);
    if Quiet(r) {
      QuietAddsUp(pool, steps);
    }
  }
}
