/** Which counter and which list entry each accepted or rejected task ends in. */
module PipelineLaws {
  import opened Pipeline

  // ---------------------------------------------------------------- reject counters by name

  /** The counters that stand for one reason only, with its name. */
  const SINGLE: seq<(Counter, string)> := [
    (Geo, "geo"), (Dedup, "dedup"), (MX, "mx"), (Blacklist, "blacklist"), (IntelOnly, "intel_only"),
    (LanderNoBuyer, "lander_no_buyer_signal"), (GitHubVendor, "github_vendor"), (TelegramSpam, "telegram_spam"),
    (LowPriority, "low_priority"), (ICP, "icp"), (Intent, "intent"), (Lang, "lang"), (Contact, "contact"),
    (NoContacts, "no_contacts"), (NoReachableContact, "no_reachable_contact"), (EmailNoContext, "email_no_context"),
    (RoleEmail, "role_email"), (EmptyHash, "empty_hash"), (StoreError, "store_error")]

  lemma SingleBuckets(i: nat, reason: string)
    requires i < |SINGLE|
    ensures SINGLE[i].0 != Dropped
    ensures Bucket(reason) == SINGLE[i].0 <==> reason == SINGLE[i].1
  {
    if i < 5 {
      FirstBuckets(i, reason);
    } else if i < 10 {
      SecondBuckets(i, reason);
    } else if i < 15 {
      ThirdBuckets(i, reason);
    } else {
      FourthBuckets(i, reason);
    }
  }

  lemma FirstBuckets(i: nat, reason: string)
    requires i < 5
    ensures SINGLE[i].0 != Dropped
    ensures Bucket(reason) == SINGLE[i].0 <==> reason == SINGLE[i].1
  {
  }

  lemma SecondBuckets(i: nat, reason: string)
    requires 5 <= i < 10
    ensures SINGLE[i].0 != Dropped
    ensures Bucket(reason) == SINGLE[i].0 <==> reason == SINGLE[i].1
  {
  }

  lemma ThirdBuckets(i: nat, reason: string)
    requires 10 <= i < 15
    ensures SINGLE[i].0 != Dropped
    ensures Bucket(reason) == SINGLE[i].0 <==> reason == SINGLE[i].1
  {
  }

  lemma FourthBuckets(i: nat, reason: string)
    requires 15 <= i < 19
    ensures SINGLE[i].0 != Dropped
    ensures Bucket(reason) == SINGLE[i].0 <==> reason == SINGLE[i].1
  {
  }

  /** Over every run each of these counters is the number of rejects with its reason. */
  lemma CountedByReason(capacity: nat, workers: nat, steps: seq<Step>, i: nat)
    requires i < |SINGLE|
    ensures var r, name := Run(CountingPool(capacity, workers), steps), SINGLE[i].1;
            Get(r.rejects, SINGLE[i].0) == Rejected(reason => reason == name, r.verdicts)
  {
    var pool, name := CountingPool(capacity, workers), SINGLE[i].1;
    var r := Run(pool, steps);
    RunKeeps(pool, steps);
    forall reason ensures (reason == name) == (Bucket(reason) == SINGLE[i].0) {
      SingleBuckets(i, reason);
    }
    VerdictsByReason(pool, reason => reason == name, r.verdicts, SINGLE[i].0);
    SingleBuckets(i, "");
  }

  /** A task rejected by a flag is rejected for the first flag set; one rejected by none for its own reason. */
  lemma FirstFlagDecides(o: Outcome)
    requires !Passed(o)
    ensures o.geo ==> Bucket(Reason(o)) == Geo
    ensures !o.geo && o.hard ==> Bucket(Reason(o)) == HardRejected
    ensures !o.geo && !o.hard && o.dedup ==> Bucket(Reason(o)) == Dedup
    ensures !o.geo && !o.hard && !o.dedup && o.mx ==> Bucket(Reason(o)) == MX
    ensures !o.geo && !o.hard && !o.dedup && !o.mx && o.reason == "" ==> Bucket(Reason(o)) == Dropped
    ensures !o.geo && !o.hard && !o.dedup && !o.mx && o.reason != "" ==> Reason(o) == o.reason
  {
  }

  // ---------------------------------------------------------------- priorities

  function High(l: Lead): bool { l.priority == "High" }
  function Medium(l: Lead): bool { l.priority == "Medium" }
  function Other(l: Lead): bool { l.priority != "High" && l.priority != "Medium" }

  function CountLeads(p: Lead -> bool, ls: seq<Lead>): nat {
    if ls == [] then 0 else CountLeads(p, ls[..|ls| - 1]) + One(p(ls[|ls| - 1]))
  }

  /** Workers whose lead meets p, has its priority counted, and is not listed yet. */
  function Unlisted(p: Lead -> bool): Phase -> bool {
    (ph: Phase) => ph.Adding? && p(ph.lead)
  }

  lemma CountLeadsSnoc(p: Lead -> bool, ls: seq<Lead>, l: Lead)
    ensures CountLeads(p, ls + [l]) == CountLeads(p, ls) + One(p(l))
  {
    assert (ls + [l])[..|ls|] == ls;
  }

  /** The counter of the leads that meet p is the listed ones and those about to be. */
  predicate CounterIs(r: Round, counter: nat, p: Lead -> bool) {
    counter == CountLeads(p, r.leads) + Count(Unlisted(p), r.workers)
  }

  predicate PrioritiesExact(r: Round) {
    CounterIs(r, r.high, High) && CounterIs(r, r.medium, Medium) && CounterIs(r, r.low, Other)
  }

  lemma StepKeepsCounter(pool: Pool, r: Round, s: Step, counter: nat, p: Lead -> bool)
    requires CounterIs(r, counter, p)
    ensures var r' := Apply(pool, r, s);
            var one := Enabled(r, s) && s.CountPriority? && p(r.workers[s.w].lead);
            CounterIs(r', counter + One(one), p)
  {
    if Enabled(r, s) {
      var q := Unlisted(p);
      match s
      case TryEnqueue =>
      case Take(w) => CountUpdate(q, r.workers, w, Holding);
      case Skip(w) => CountUpdate(q, r.workers, w, Free);
      case Begin(w) => CountUpdate(q, r.workers, w, Running);
      case Settle(w, o) => CountUpdate(q, r.workers, w, if Passed(o) then Ranking(o.lead) else Free);
      case CountPriority(w) => CountUpdate(q, r.workers, w, Adding(r.workers[w].lead));
      case AddLead(w) =>
        CountUpdate(q, r.workers, w, Free);
        CountLeadsSnoc(p, r.leads, r.workers[w].lead);
    }
  }

  lemma StepKeepsPriorities(pool: Pool, r: Round, s: Step)
    requires PrioritiesExact(r)
    ensures PrioritiesExact(Apply(pool, r, s))
  {
    StepKeepsCounter(pool, r, s, r.high, High);
    StepKeepsCounter(pool, r, s, r.medium, Medium);
    StepKeepsCounter(pool, r, s, r.low, Other);
  }

  /** Over every interleaving each priority counter counts exactly the leads of its priority. */
  lemma {:induction false} RunCountsPriorities(pool: Pool, steps: seq<Step>)
    ensures PrioritiesExact(Run(pool, steps))
    ensures var r := Run(pool, steps);
            Quiet(r) ==> r.high == CountLeads(High, r.leads) && r.medium == CountLeads(Medium, r.leads)
                         && r.low == CountLeads(Other, r.leads)
  {
    if steps == [] {
      var ws := Fresh(pool.workers).workers;
      CountNone(Unlisted(High), ws);
      CountNone(Unlisted(Medium), ws);
      CountNone(Unlisted(Other), ws);
    } else {
      RunCountsPriorities(pool, steps[..|steps| - 1]);
      StepKeepsPriorities(pool, Run(pool, steps[..|steps| - 1]), steps[|steps| - 1]);
    }
    var r := Run(pool, steps);
    if Quiet(r) {
      CountNone(Unlisted(High), r.workers);
      CountNone(Unlisted(Medium), r.workers);
      CountNone(Unlisted(Other), r.workers);
    }
  }

  // ---------------------------------------------------------------- the listed leads are the accepted ones

  /** The accepted verdicts whose lead meets p. */
  function Accepts(p: Lead -> bool, os: seq<Outcome>): nat {
    if os == [] then 0
    else
      var o := os[|os| - 1];
      Accepts(p, os[..|os| - 1]) + One(Passed(o) && p(o.lead))
  }

  /** Workers with an accepted lead that meets p and is not listed yet. */
  function InHand(p: Lead -> bool): Phase -> bool {
    (ph: Phase) => (ph.Ranking? || ph.Adding?) && p(ph.lead)
  }

  lemma AcceptsSnoc(p: Lead -> bool, os: seq<Outcome>, o: Outcome)
    ensures Accepts(p, os + [o]) == Accepts(p, os) + One(Passed(o) && p(o.lead))
  {
    assert (os + [o])[..|os|] == os;
  }

  predicate LeadsKept(r: Round, p: Lead -> bool) {
    CountLeads(p, r.leads) + Count(InHand(p), r.workers) == Accepts(p, r.verdicts)
  }

  lemma SettleKeepsLeads(pool: Pool, r: Round, w: nat, o: Outcome, p: Lead -> bool)
    requires LeadsKept(r, p) && Enabled(r, Settle(w, o))
    ensures LeadsKept(Apply(pool, r, Settle(w, o)), p)
  {
    CountUpdate(InHand(p), r.workers, w, if Passed(o) then Ranking(o.lead) else Free);
    AcceptsSnoc(p, r.verdicts, o);
  }

  lemma StepKeepsLeads(pool: Pool, r: Round, s: Step, p: Lead -> bool)
    requires LeadsKept(r, p)
    ensures LeadsKept(Apply(pool, r, s), p)
  {
    if Enabled(r, s) {
      var q := InHand(p);
      match s
      case TryEnqueue =>
      case Take(w) => CountUpdate(q, r.workers, w, Holding);
      case Skip(w) => CountUpdate(q, r.workers, w, Free);
      case Begin(w) => CountUpdate(q, r.workers, w, Running);
      case Settle(w, o) => SettleKeepsLeads(pool, r, w, o, p);
      case CountPriority(w) => CountUpdate(q, r.workers, w, Adding(r.workers[w].lead));
      case AddLead(w) =>
        CountUpdate(q, r.workers, w, Free);
        CountLeadsSnoc(p, r.leads, r.workers[w].lead);
    }
  }

  /**
   * Over every interleaving no accepted lead is lost, changed or listed twice: of the leads with any property as
   * many are listed, or about to be, as were accepted.
   */
  lemma {:induction false} RunKeepsLeads(pool: Pool, steps: seq<Step>, p: Lead -> bool)
    ensures LeadsKept(Run(pool, steps), p)
    ensures var r := Run(pool, steps); Quiet(r) ==> CountLeads(p, r.leads) == Accepts(p, r.verdicts)
  {
    if steps == [] {
      CountNone(InHand(p), Fresh(pool.workers).workers);
    } else {
      RunKeepsLeads(pool, steps[..|steps| - 1], p);
      StepKeepsLeads(pool, Run(pool, steps[..|steps| - 1]), steps[|steps| - 1], p);
    }
    if Quiet(Run(pool, steps)) {
      CountNone(InHand(p), Run(pool, steps).workers);
    }
  }
}
