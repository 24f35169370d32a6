/**
 * Any number of recorders over one generation-checked store: find, merge a copy, replace if
 * the generation is unchanged, otherwise try again. Every step of every recorder may
 * interleave with every other.
 */
module Protocol {
  import opened Text
  import opened Lists
  import opened Entity
  import opened HeatScore
  import opened Merging
  import opened Folding
  import opened Replaying
  import opened Keys

  /** The document operations a recorder calls, the id it looks for, and its attempts. */
  datatype Env = Env(
    create: (string, Obs) -> Doc, merge: (Doc, Obs) -> Doc, candidate: seq<Key> -> string, maxAttempts: nat)

  /** All the protocol relies on: a document keeps its id, and its generation counts the merges. */
  ghost predicate Lawful(env: Env) {
    && (forall id: string, o: Obs :: env.create(id, o).id == id && env.create(id, o).generation == 0)
    && (forall d: Doc, o: Obs :: env.merge(d, o).id == d.id && env.merge(d, o).generation == d.generation + 1)
  }

  function FirstKey(o: Obs): Key {
    if o.keys == [] then Key("", "") else o.keys[0]
  }

  /** The operations of the entity package. */
  function Entities(sig: Signals, digest: string -> string, cfg: Config, maxAttempts: nat): Env {
    Env((id: string, o: Obs) => NewDoc(sig, id, FirstKey(o), o, cfg, o.clock.atMerge),
        (d: Doc, o: Obs) => Merge(sig, d, o, cfg, o.clock.atMerge),
        (keys: seq<Key>) => EntityID(digest, keys),
        maxAttempts)
  }

  /** The configured attempts, or the default of four. */
  function Attempts(env: Env): nat {
    if env.maxAttempts == 0 then 4 else env.maxAttempts
  }

  /**
   * Where a recorder is. `start` and `since` remember the store's commit count when the call
   * and the current look-up began.
   */
  datatype Phase =
    | Idle
    | Looking(o: Obs, attempt: nat, start: nat)
    | Holding(o: Obs, attempt: nat, start: nat, since: nat, copy: Doc)
    | Absent(o: Obs, attempt: nat, start: nat, since: nat)

  /** The store, the recorders, and the history of successful writes per entity, in commit order. */
  datatype State = State(docs: map<string, Doc>, procs: map<nat, Phase>, commits: map<string, seq<Obs>>, total: nat)

  const INITIAL := State(map[], map[], map[], 0)

  datatype Lookup = Found(id: string) | NotFound

  datatype Step =
    | Start(p: nat, o: Obs)
    | Find(p: nat, clock: Clock, found: Lookup)
    | Replace(p: nat)
    | Insert(p: nat, duplicate: bool)
    | Abort(p: nat)

  function At(st: State, p: nat): Phase {
    if p in st.procs then st.procs[p] else Idle
  }

  /** The look-up contract: the candidate id, or any document sharing an alias. */
  ghost predicate Matches(env: Env, d: Doc, o: Obs) {
    d.id == env.candidate(o.keys) || exists a | a in AliasTokens(o.keys) :: a in d.aliases
  }

  ghost predicate Enabled(env: Env, st: State, s: Step) {
    match s
    case Start(p, o) => At(st, p).Idle? && o.keys != [] && Trim(o.hash) != ""
    case Find(p, clock, Found(id)) => At(st, p).Looking? && id in st.docs && Matches(env, st.docs[id], At(st, p).o)
    case Find(p, clock, NotFound) =>
      At(st, p).Looking? && forall id | id in st.docs :: !Matches(env, st.docs[id], At(st, p).o)
    case Replace(p) => At(st, p).Holding?
    case Insert(p, duplicate) =>
      && At(st, p).Absent?
      && (env.candidate(At(st, p).o.keys) in st.docs ==> duplicate)
      && (duplicate ==> exists id | id in st.docs :: Matches(env, st.docs[id], At(st, p).o))
    case Abort(p) => true
  }

  /** A conflict: the next attempt, or giving up. */
  function Retry(env: Env, o: Obs, attempt: nat, start: nat): Phase {
    if attempt + 1 < Attempts(env) then Looking(o, attempt + 1, start) else Idle
  }

  predicate Unchanged(st: State, copy: Doc) {
    copy.id in st.docs && st.docs[copy.id].generation == copy.generation
  }

  function Commit(st: State, p: nat, d: Doc, o: Obs): State {
    State(st.docs[d.id := d], st.procs[p := Idle],
          st.commits[d.id := (if d.id in st.commits then st.commits[d.id] else []) + [o]], st.total + 1)
  }

  function Apply(env: Env, st: State, s: Step): State {
    match s
    case Start(p, o) => st.(procs := st.procs[p := Looking(o, 0, st.total)])
    case Find(p, clock, found) =>
      (match At(st, p)
       case Looking(o, attempt, start) =>
         var o' := o.(clock := clock);
         st.(procs := st.procs[p := if found.Found? && found.id in st.docs
                                    then Holding(o', attempt, start, st.total, st.docs[found.id])
                                    else Absent(o', attempt, start, st.total)])
       case _ => st)
    case Replace(p) =>
      (match At(st, p)
       case Holding(o, attempt, start, since, copy) =>
         if Unchanged(st, copy) then Commit(st, p, env.merge(copy, o), o)
         else st.(procs := st.procs[p := Retry(env, o, attempt, start)])
       case _ => st)
    case Insert(p, duplicate) =>
      (match At(st, p)
       case Absent(o, attempt, start, since) =>
         if duplicate then st.(procs := st.procs[p := Retry(env, o, attempt, start)])
         else Commit(st, p, env.create(env.candidate(o.keys), o), o)
       case _ => st)
    case Abort(p) => st.(procs := st.procs[p := Idle])
  }

  // ---------------------------------------------------------------- the invariant

  /** The document its committed recordings build, one after the other. */
  function Sequential(env: Env, id: string, os: seq<Obs>): Doc
    requires os != []
  {
    var o := os[|os| - 1];
    if |os| == 1 then env.create(id, o) else env.merge(Sequential(env, id, os[..|os| - 1]), o)
  }

  predicate GoodObs(o: Obs) {
    o.keys != [] && Trim(o.hash) != ""
  }

  predicate GoodLog(os: seq<Obs>) {
    os != [] && forall i | 0 <= i < |os| :: GoodObs(os[i])
  }

  /** Every stored document is the sequential replay of its commits. */
  ghost predicate Serial(env: Env, st: State) {
    && st.docs.Keys == st.commits.Keys
    && forall id | id in st.commits :: IsReplay(env, id, st.commits[id], st.docs[id])
  }

  ghost predicate IsReplay(env: Env, id: string, os: seq<Obs>, d: Doc) {
    GoodLog(os) && d == Sequential(env, id, os)
  }

  /** A held copy is the version of its document that its generation names. */
  ghost predicate IsVersion(env: Env, st: State, copy: Doc) {
    && copy.id in st.commits && 0 <= copy.generation < |st.commits[copy.id]|
    && GoodLog(st.commits[copy.id])
    && copy == Sequential(env, copy.id, st.commits[copy.id][..copy.generation + 1])
  }

  ghost predicate PhaseOk(env: Env, st: State, ph: Phase) {
    match ph
    case Idle => true
    case Looking(o, attempt, start) => GoodObs(o) && start + attempt <= st.total && attempt < Attempts(env)
    case Holding(o, attempt, start, since, copy) =>
      && GoodObs(o) && start + attempt <= since <= st.total && attempt < Attempts(env) && IsVersion(env, st, copy)
      && (since == st.total ==> Unchanged(st, copy))
    case Absent(o, attempt, start, since) =>
      && GoodObs(o) && start + attempt <= since <= st.total && attempt < Attempts(env)
      && (since == st.total ==> forall id | id in st.docs :: !Matches(env, st.docs[id], o))
  }

  ghost predicate Inv(env: Env, st: State) {
    Lawful(env) && Serial(env, st) && forall p | p in st.procs :: PhaseOk(env, st, st.procs[p])
  }

  lemma {:induction false} SequentialVersion(env: Env, id: string, os: seq<Obs>)
    requires Lawful(env) && os != []
    ensures Sequential(env, id, os).id == id && Sequential(env, id, os).generation == |os| - 1
  {
    if |os| > 1 {
      SequentialVersion(env, id, os[..|os| - 1]);
    }
  }

  /** An unchanged generation means an unchanged document. */
  lemma UnchangedIsCurrent(env: Env, st: State, copy: Doc)
    requires Lawful(env) && Serial(env, st) && IsVersion(env, st, copy)
    ensures Unchanged(st, copy) <==> copy.generation == |st.commits[copy.id]| - 1
    ensures Unchanged(st, copy) ==> copy == st.docs[copy.id]
  {
    var os := st.commits[copy.id];
    SequentialVersion(env, copy.id, os);
    assert os[..|os|] == os;
  }

  lemma SequentialExtends(env: Env, id: string, os: seq<Obs>, o: Obs)
    requires GoodLog(os) && GoodObs(o)
    ensures GoodLog(os + [o])
    ensures Sequential(env, id, os + [o]) == env.merge(Sequential(env, id, os), o)
  {
    assert (os + [o])[..|os|] == os;
  }

  /** A version stays a version when logs only grow. */
  lemma VersionStays(env: Env, st: State, st': State, copy: Doc)
    requires IsVersion(env, st, copy) && copy.id in st'.commits && GoodLog(st'.commits[copy.id])
    requires st.commits[copy.id] <= st'.commits[copy.id]
    ensures IsVersion(env, st', copy)
  {
    var n := copy.generation + 1;
    assert st'.commits[copy.id][..n] == st.commits[copy.id][..n];
  }

  /** Logs only ever grow: no step takes a committed recording back. */
  ghost predicate Grows(st: State, st': State) {
    && st.commits.Keys <= st'.commits.Keys && st.total <= st'.total
    && forall id | id in st.commits :: st.commits[id] <= st'.commits[id]
  }

  lemma OthersStay(env: Env, st: State, st': State, ph: Phase)
    requires PhaseOk(env, st, ph) && Serial(env, st') && Grows(st, st') && st.total < st'.total
    ensures PhaseOk(env, st', ph)
  {
    if ph.Holding? {
      VersionStays(env, st, st', ph.copy);
    }
  }

  /** Committing the next document of a log keeps every document the replay of its log. */
  lemma CommitSerial(env: Env, st: State, p: nat, d: Doc, o: Obs, os: seq<Obs>)
    requires Serial(env, st) && IsReplay(env, d.id, os, d)
    requires os == (if d.id in st.commits then st.commits[d.id] else []) + [o]
    ensures Serial(env, Commit(st, p, d, o))
  {
    var st' := Commit(st, p, d, o);
    assert st'.commits == st.commits[d.id := os] && st'.docs == st.docs[d.id := d];
    forall id | id in st'.commits
      ensures IsReplay(env, id, st'.commits[id], st'.docs[id])
    {
      if id != d.id {
        assert id in st.commits && st'.commits[id] == st.commits[id] && st'.docs[id] == st.docs[id];
        assert IsReplay(env, id, st.commits[id], st.docs[id]);
      }
    }
  }

  lemma CommitGrows(st: State, p: nat, d: Doc, o: Obs)
    ensures Grows(st, Commit(st, p, d, o)) && Commit(st, p, d, o).total == st.total + 1
    ensures d.id in st.commits ==> Commit(st, p, d, o).commits == st.commits[d.id := st.commits[d.id] + [o]]
  {
  }

  lemma MergeCommits(env: Env, st: State, p: nat)
    requires Inv(env, st) && At(st, p).Holding? && Unchanged(st, At(st, p).copy)
    ensures var st' := Apply(env, st, Replace(p));
            Serial(env, st') && Grows(st, st') && st'.total == st.total + 1
            && st'.commits == st.commits[At(st, p).copy.id := st.commits[At(st, p).copy.id] + [At(st, p).o]]
  {
    var ph := At(st, p);
    assert PhaseOk(env, st, ph);
    ReplaceIsCommit(env, st, p);
    MergedSerial(env, st, p, ph.copy, ph.o);
    CommitGrows(st, p, env.merge(ph.copy, ph.o), ph.o);
    assert env.merge(ph.copy, ph.o).id == ph.copy.id;
  }

  lemma ReplaceIsCommit(env: Env, st: State, p: nat)
    requires At(st, p).Holding? && Unchanged(st, At(st, p).copy)
    ensures var ph := At(st, p); Apply(env, st, Replace(p)) == Commit(st, p, env.merge(ph.copy, ph.o), ph.o)
  {
  }

  lemma MergedSerial(env: Env, st: State, p: nat, copy: Doc, o: Obs)
    requires Lawful(env) && Serial(env, st) && IsVersion(env, st, copy) && Unchanged(st, copy) && GoodObs(o)
    ensures Serial(env, Commit(st, p, env.merge(copy, o), o))
  {
    var os := st.commits[copy.id];
    UnchangedIsCurrent(env, st, copy);
    SequentialExtends(env, copy.id, os, o);
    SequentialVersion(env, copy.id, os + [o]);
    CommitSerial(env, st, p, env.merge(copy, o), o, os + [o]);
  }

  lemma InsertCommits(env: Env, st: State, p: nat)
    requires Inv(env, st) && At(st, p).Absent? && Enabled(env, st, Insert(p, false))
    ensures var st', id := Apply(env, st, Insert(p, false)), env.candidate(At(st, p).o.keys);
            Serial(env, st') && Grows(st, st') && st'.total == st.total + 1
            && id !in st.commits && st'.commits == st.commits[id := [At(st, p).o]]
  {
    var ph := At(st, p);
    assert PhaseOk(env, st, ph);
    var o := ph.o;
    var id := env.candidate(o.keys);
    SequentialVersion(env, id, [o]);
    assert [] + [o] == [o];
    CommitSerial(env, st, p, env.create(id, o), o, [o]);
    CommitGrows(st, p, env.create(id, o), o);
  }

  /** The store, its logs and its commit count decide whether a phase is in order; the other recorders do not. */
  lemma PhaseFrame(env: Env, st: State, st': State, ph: Phase)
    requires st'.docs == st.docs && st'.commits == st.commits && st'.total == st.total
    ensures PhaseOk(env, st, ph) ==> PhaseOk(env, st', ph)
  {
  }

  lemma QuietStep(env: Env, st: State, p: nat, ph: Phase)
    requires Inv(env, st) && PhaseOk(env, st, ph)
    ensures Inv(env, st.(procs := st.procs[p := ph])) && Grows(st, st.(procs := st.procs[p := ph]))
  {
    var st' := st.(procs := st.procs[p := ph]);
    forall q | q in st'.procs
      ensures PhaseOk(env, st', st'.procs[q])
    {
      PhaseFrame(env, st, st', st'.procs[q]);
    }
  }

  lemma FindKeeps(env: Env, st: State, p: nat, clock: Clock, found: Lookup)
    requires Inv(env, st) && Enabled(env, st, Find(p, clock, found))
    ensures Inv(env, Apply(env, st, Find(p, clock, found))) && Grows(st, Apply(env, st, Find(p, clock, found)))
  {
    var ph := At(st, p);
    assert PhaseOk(env, st, ph);
    var o' := ph.o.(clock := clock);
    if found.Found? {
      var os := st.commits[found.id];
      SequentialVersion(env, found.id, os);
      assert os[..|os|] == os;
      QuietStep(env, st, p, Holding(o', ph.attempt, ph.start, st.total, st.docs[found.id]));
    } else {
      QuietStep(env, st, p, Absent(o', ph.attempt, ph.start, st.total));
    }
  }

  lemma ReplaceKeeps(env: Env, st: State, p: nat)
    requires Inv(env, st) && Enabled(env, st, Replace(p))
    ensures Inv(env, Apply(env, st, Replace(p))) && Grows(st, Apply(env, st, Replace(p)))
  {
    var ph := At(st, p);
    assert PhaseOk(env, st, ph);
    if Unchanged(st, ph.copy) {
      MergeCommits(env, st, p);
      CommitKeeps(env, st, Apply(env, st, Replace(p)), p);
    } else {
      QuietStep(env, st, p, Retry(env, ph.o, ph.attempt, ph.start));
    }
  }

  lemma InsertKeeps(env: Env, st: State, p: nat, duplicate: bool)
    requires Inv(env, st) && Enabled(env, st, Insert(p, duplicate))
    ensures Inv(env, Apply(env, st, Insert(p, duplicate))) && Grows(st, Apply(env, st, Insert(p, duplicate)))
  {
    var ph := At(st, p);
    assert PhaseOk(env, st, ph);
    if duplicate {
      QuietStep(env, st, p, Retry(env, ph.o, ph.attempt, ph.start));
    } else {
      InsertIsCommit(env, st, p);
      InsertCommits(env, st, p);
      CommitKeeps(env, st, Apply(env, st, Insert(p, false)), p);
    }
  }

  lemma InsertIsCommit(env: Env, st: State, p: nat)
    requires At(st, p).Absent? && Enabled(env, st, Insert(p, false))
    ensures var o := At(st, p).o;
            Apply(env, st, Insert(p, false)) == Commit(st, p, env.create(env.candidate(o.keys), o), o)
  {
  }

  /** Every step of every recorder keeps the invariant, and no step takes a commit back. */
  lemma StepKeeps(env: Env, st: State, s: Step)
    requires Inv(env, st) && Enabled(env, st, s)
    ensures Inv(env, Apply(env, st, s)) && Grows(st, Apply(env, st, s))
  {
    match s
    case Start(p, o) => QuietStep(env, st, p, Looking(o, 0, st.total));
    case Abort(p) => QuietStep(env, st, p, Idle);
    case Find(p, clock, found) => FindKeeps(env, st, p, clock, found);
    case Replace(p) => ReplaceKeeps(env, st, p);
    case Insert(p, duplicate) => InsertKeeps(env, st, p, duplicate);
  }

  lemma CommitKeeps(env: Env, st: State, st': State, p: nat)
    requires Inv(env, st) && Serial(env, st') && Grows(st, st') && st.total < st'.total
    requires st'.procs == st.procs[p := Idle]
    ensures Inv(env, st')
  {
    forall q | q in st'.procs
      ensures PhaseOk(env, st', st'.procs[q])
    {
      if q != p {
        OthersStay(env, st, st', st.procs[q]);
      }
    }
  }

  // ---------------------------------------------------------------- whole runs

  function Run(env: Env, st: State, steps: seq<Step>): State {
    if steps == [] then st else Apply(env, Run(env, st, steps[..|steps| - 1]), steps[|steps| - 1])
  }

  ghost predicate ValidRun(env: Env, st: State, steps: seq<Step>) {
    steps == [] ||
    (ValidRun(env, st, steps[..|steps| - 1]) && Enabled(env, Run(env, st, steps[..|steps| - 1]), steps[|steps| - 1]))
  }

  lemma {:induction false} RunKeeps(env: Env, st: State, steps: seq<Step>)
    requires Inv(env, st) && ValidRun(env, st, steps)
    ensures Inv(env, Run(env, st, steps)) && Grows(st, Run(env, st, steps))
  {
    if steps != [] {
      var before := steps[..|steps| - 1];
      RunKeeps(env, st, before);
      StepKeeps(env, Run(env, st, before), steps[|steps| - 1]);
    }
  }

  lemma InitialInv(env: Env)
    requires Lawful(env)
    ensures Inv(env, INITIAL)
  {
  }

  /**
   * A replace fails exactly when somebody else committed to the same document since the copy
   * was taken; in particular a recorder running alone never fails.
   */
  lemma ConflictMeansProgress(env: Env, st: State, p: nat)
    requires Inv(env, st) && At(st, p).Holding?
    ensures var copy := At(st, p).copy;
            copy.id in st.commits && (!Unchanged(st, copy) <==> |st.commits[copy.id]| > copy.generation + 1)
    ensures !Unchanged(st, At(st, p).copy) ==> st.total > At(st, p).since
  {
    assert PhaseOk(env, st, At(st, p));
    UnchangedIsCurrent(env, st, At(st, p).copy);
  }

  /** A refused write is tried again, up to the configured attempts in all, or four; then the call gives up. */
  lemma RefusedRetries(env: Env, st: State, p: nat, s: Step)
    requires Enabled(env, st, s) && s.p == p && (s.Replace? || s.Insert?) && Apply(env, st, s).total == st.total
    ensures var most, ph := if env.maxAttempts == 0 then 4 else env.maxAttempts, At(st, p);
            At(Apply(env, st, s), p) ==
            if ph.attempt + 1 < most then Looking(ph.o, ph.attempt + 1, ph.start) else Idle
  {
  }

  /** A call gives up only after at least as many commits by others as it had attempts. */
  lemma GivingUpMeansProgress(env: Env, st: State, p: nat, s: Step)
    requires Inv(env, st) && Enabled(env, st, s) && s.p == p && (s.Replace? || s.Insert?)
    requires At(Apply(env, st, s), p).Idle? && Apply(env, st, s).total == st.total
    ensures st.total >= At(st, p).start + if env.maxAttempts == 0 then 4 else env.maxAttempts
  {
    assert PhaseOk(env, st, At(st, p));
  }

  // ---------------------------------------------------------------- a race

  /** next is reached from st by a run that extends the given one. */
  ghost predicate Reaches(env: Env, st: State, steps: seq<Step>, next: State) {
    ValidRun(env, st, steps) && Run(env, st, steps) == next
  }

  lemma Then(env: Env, st: State, steps: seq<Step>, cur: State, s: Step)
    requires Reaches(env, st, steps, cur) && Enabled(env, cur, s)
    ensures Reaches(env, st, steps + [s], Apply(env, cur, s))
  {
    assert (steps + [s])[..|steps|] == steps;
  }

  /** A recorder looks its candidate up and reads the stored document. */
  lemma Reads(env: Env, st: State, steps: seq<Step>, cur: State, p: nat, clock: Clock)
    requires Reaches(env, st, steps, cur) && At(cur, p).Looking?
    requires var id := env.candidate(At(cur, p).o.keys); id in cur.docs && cur.docs[id].id == id
    ensures var ph := At(cur, p);
            var id, o := env.candidate(ph.o.keys), ph.o.(clock := clock);
            Reaches(env, st, steps + [Find(p, clock, Found(id))],
                    cur.(procs := cur.procs[p := Holding(o, ph.attempt, ph.start, cur.total, cur.docs[id])]))
  {
    Then(env, st, steps, cur, Find(p, clock, Found(env.candidate(At(cur, p).o.keys))));
  }

  /**
   * Two recorders that read the same version race for it: the first to replace wins, the second
   * is refused, reads again and commits on top. From any state both recordings end up in the log.
   */
  lemma RaceRecovers(
      env: Env, st: State, id: string, p: nat, q: nat, x: Obs, y: Obs, cx: Clock,
      cy: Clock) returns (steps: seq<Step>)
    requires Inv(env, st) && id in st.docs && p != q && At(st, p).Idle? && At(st, q).Idle?
    requires GoodObs(x) && GoodObs(y) && env.candidate(x.keys) == id == env.candidate(y.keys) && Attempts(env) > 1
    ensures ValidRun(env, st, steps)
    ensures Run(env, st, steps).commits == st.commits[id := st.commits[id] + [x.(clock := cx), y.(clock := cy)]]
  {
    var d, x', y' := st.docs[id], x.(clock := cx), y.(clock := cy);
    assert IsReplay(env, id, st.commits[id], d);
    SequentialVersion(env, id, st.commits[id]);
    var st2 := st.(procs := st.procs[p := Looking(x, 0, st.total)][q := Looking(y, 0, st.total)]);
    assert Reaches(env, st, [], st);
    Then(env, st, [], st, Start(p, x));
    Then(env, st, [] + [Start(p, x)], st.(procs := st.procs[p := Looking(x, 0, st.total)]), Start(q, y));
    steps := [] + [Start(p, x)] + [Start(q, y)];
    Reads(env, st, steps, st2, p, cx);
    steps := steps + [Find(p, cx, Found(id))];
    var st3 := st2.(procs := st2.procs[p := Holding(x', 0, st.total, st.total, d)]);
    Reads(env, st, steps, st3, q, cy);
    steps := steps + [Find(q, cy, Found(id))];
    var st4 := st3.(procs := st3.procs[q := Holding(y', 0, st.total, st.total, d)]);
    steps := Overtakes(env, st, steps, st4, p, q, x', y', d);
  }

  lemma Overtakes(
      env: Env, st: State, before: seq<Step>, cur: State, p: nat, q: nat, x: Obs, y: Obs,
      d: Doc) returns (steps: seq<Step>)
    requires Lawful(env) && Reaches(env, st, before, cur) && p != q && Attempts(env) > 1
    requires d.id in cur.docs && cur.docs[d.id] == d && d.id in cur.commits && env.candidate(y.keys) == d.id
    requires At(cur, p) == Holding(x, 0, cur.total, cur.total, d)
    requires At(cur, q) == Holding(y, 0, cur.total, cur.total, d)
    ensures ValidRun(env, st, steps)
    ensures Run(env, st, steps).commits == cur.commits[d.id := cur.commits[d.id] + [x, y]]
  {
    var won := env.merge(d, x);
    Then(env, st, before, cur, Replace(p));
    var c1 := Commit(cur, p, won, x);
    steps := before + [Replace(p)];
    Then(env, st, steps, c1, Replace(q));
    steps := steps + [Replace(q)];
    var c2 := c1.(procs := c1.procs[q := Looking(y, 1, cur.total)]);
    assert y.(clock := y.clock) == y;
    Reads(env, st, steps, c2, q, y.clock);
    steps := steps + [Find(q, y.clock, Found(d.id))];
    var c3 := c2.(procs := c2.procs[q := Holding(y, 1, cur.total, c2.total, won)]);
    Then(env, st, steps, c3, Replace(q));
    steps := steps + [Replace(q)];
    var end := Commit(c3, q, env.merge(won, y), y);
    assert (cur.commits[d.id] + [x]) + [y] == cur.commits[d.id] + [x, y];
    assert end.commits == c1.commits[d.id := cur.commits[d.id] + [x, y]];
  }

  // ---------------------------------------------------------------- the entity store

  lemma EntitiesLawful(sig: Signals, digest: string -> string, cfg: Config, maxAttempts: nat)
    ensures Lawful(Entities(sig, digest, cfg, maxAttempts))
  {
  }

  lemma {:induction false} EntitiesReplay(
      sig: Signals, digest: string -> string, cfg: Config, maxAttempts: nat, id: string, os: seq<Obs>)
    requires os != []
    ensures Sequential(Entities(sig, digest, cfg, maxAttempts), id, os) == Replay(sig, id, FirstKey(os[0]), cfg, os)
  {
    var env, last := Entities(sig, digest, cfg, maxAttempts), os[|os| - 1];
    if |os| > 1 {
      EntitiesReplay(sig, digest, cfg, maxAttempts, id, os[..|os| - 1]);
      SequentialUnfolds(env, id, os);
      ReplayUnfolds(sig, id, FirstKey(os[0]), cfg, os);
      var d := Sequential(env, id, os[..|os| - 1]);
      assert env.merge(d, last) == Merge(sig, d, last, cfg, last.clock.atMerge);
    }
  }

  lemma SequentialUnfolds(env: Env, id: string, os: seq<Obs>)
    requires |os| > 1
    ensures Sequential(env, id, os) == env.merge(Sequential(env, id, os[..|os| - 1]), os[|os| - 1])
  {
  }

  lemma ReplayUnfolds(sig: Signals, id: string, primary: Key, cfg: Config, os: seq<Obs>)
    requires |os| > 1
    ensures var o, d := os[|os| - 1], Replay(sig, id, primary, cfg, os[..|os| - 1]);
            Replay(sig, id, primary, cfg, os) == Merge(sig, d, o, cfg, o.clock.atMerge)
  {
  }

  /**
   * No lost update. After any interleaving of any number of recorders, every stored document is
   * what its committed recordings build one after the other; it holds the hash of every one of
   * them, counts each distinct hash once, and its generation is the number of replaces since
   * its insert.
   */
  lemma NoLostUpdate(
      sig: Signals, digest: string -> string, cfg: Config, maxAttempts: nat, steps: seq<Step>, id: string)
    requires ValidRun(Entities(sig, digest, cfg, maxAttempts), INITIAL, steps)
    requires id in Run(Entities(sig, digest, cfg, maxAttempts), INITIAL, steps).commits
    ensures var st := Run(Entities(sig, digest, cfg, maxAttempts), INITIAL, steps);
            var os := st.commits[id];
            && id in st.docs && GoodLog(os) && st.docs[id] == Replay(sig, id, os[0].keys[0], cfg, os)
            && Linked(st.docs[id], id, os)
            && (forall o | o in os :: Trim(o.hash) in st.docs[id].hashes)
            && |st.docs[id].hashes| == |Image(HashOf, SetOf(os))|
            && ((forall o | o in os :: Recordable(o)) ==> DocInv(st.docs[id]))
  {
    var env := Entities(sig, digest, cfg, maxAttempts);
    EntitiesLawful(sig, digest, cfg, maxAttempts);
    InitialInv(env);
    RunKeeps(env, INITIAL, steps);
    var st := Run(env, INITIAL, steps);
    var os := st.commits[id];
    assert IsReplay(env, id, os, st.docs[id]);
    EntitiesReplay(sig, digest, cfg, maxAttempts, id, os);
    ReplayHolds(sig, id, os[0].keys[0], cfg, os);
  }

  lemma ReplayHolds(sig: Signals, id: string, primary: Key, cfg: Config, os: seq<Obs>)
    requires GoodLog(os)
    ensures var d := Replay(sig, id, primary, cfg, os);
            && Linked(d, id, os)
            && (forall o | o in os :: Trim(o.hash) in d.hashes)
            && |d.hashes| == |Image(HashOf, SetOf(os))|
            && ((forall o | o in os :: Recordable(o)) ==> DocInv(d))
  {
    var d := Replay(sig, id, primary, cfg, os);
    ReplayLinked(sig, id, primary, cfg, os);
    NoDupSize(d.hashes);
    forall o | o in os ensures Trim(o.hash) in d.hashes {
      assert o in SetOf(os) && HashOf(o) in Image(HashOf, SetOf(os));
      assert HashOf(o) in Elems(d.hashes);
    }
    if forall o | o in os :: Recordable(o) {
      ReplayInv(sig, id, primary, cfg, os);
    }
  }

  /** A recording stays recorded: whatever any recorder does afterwards, its hash is still in the document. */
  lemma CommitsStay(
      sig: Signals, digest: string -> string, cfg: Config, maxAttempts: nat, st: State, more: seq<Step>, id: string,
      o: Obs)
    requires Inv(Entities(sig, digest, cfg, maxAttempts), st)
    requires ValidRun(Entities(sig, digest, cfg, maxAttempts), st, more)
    requires id in st.commits && o in st.commits[id]
    ensures var st' := Run(Entities(sig, digest, cfg, maxAttempts), st, more);
            id in st'.docs && id in st'.commits && o in st'.commits[id] && Trim(o.hash) in st'.docs[id].hashes
  {
    var env := Entities(sig, digest, cfg, maxAttempts);
    RunKeeps(env, st, more);
    var st' := Run(env, st, more);
    var os := st'.commits[id];
    assert o in os by {
      var i :| 0 <= i < |st.commits[id]| && st.commits[id][i] == o;
      assert os[i] == o;
    }
    assert IsReplay(env, id, os, st'.docs[id]);
    EntitiesReplay(sig, digest, cfg, maxAttempts, id, os);
    ReplayHolds(sig, id, os[0].keys[0], cfg, os);
  }
}
