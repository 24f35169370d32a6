/** The capped timeline against the full history of everything ever recorded. */
module History {
  import opened Text
  import opened Entity
  import opened Timeline

  /** What the full history knows of a hash: whether a post time was ever given, and its event time. */
  datatype Stamp = Stamp(dated: bool, event: Time)

  /** The history: every hash ever recorded, with its latest stamp. Nothing is ever trimmed. */
  type Log = map<string, Stamp>

  function StampOf(r: Row): Stamp {
    Stamp(r.posted != 0, Event(r))
  }

  function LogRanks(log: Log): set<Rank> {
    set h | h in log :: Rank(log[h].event, h)
  }

  /** A post time overrides; without one, a dated hash keeps its date and an undated one moves to the new crawl time. */
  function LogStep(log: Log, o: Obs): Log {
    var h := Trim(o.hash);
    if h == "" then log
    else if o.posted != 0 then log[h := Stamp(true, o.posted)]
    else if h in log && log[h].dated then log
    else log[h := Stamp(false, EventOf(o))]
  }

  /** The stored rows are the twenty highest of the history, each with its current stamp. */
  ghost predicate Refines(rows: seq<Row>, log: Log) {
    && DistinctHashes(rows)
    && IsTop(Ranks(rows), LogRanks(log))
    && Current(rows, log)
  }

  predicate Current(rows: seq<Row>, log: Log) {
    forall r | r in rows :: r.hash in log && log[r.hash] == StampOf(r)
  }

  /** The recording brings back, without its date, a dated hash that was trimmed. */
  predicate Undated(rows: seq<Row>, log: Log, o: Obs) {
    var h := Trim(o.hash);
    h in log && log[h].dated && o.posted == 0 && h !in Hashes(rows)
  }

  /** Such a hash gets a row at its crawl time, which must rank below every stored row. */
  predicate StaysOut(rows: seq<Row>, log: Log, o: Obs) {
    Undated(rows, log, o) ==> forall r | r in rows :: Higher(RankOf(r), Rank(EventOf(o), Trim(o.hash)))
  }

  /** If the hash is stored, its new event still beats every trimmed hash. */
  ghost predicate KeepsPlace(rows: seq<Row>, log: Log, o: Obs)
    requires Trim(o.hash) != ""
  {
    var h := Trim(o.hash);
    h in Hashes(rows) ==>
      forall g | g in log && g !in Hashes(rows) ::
        Higher(Rank(LogStep(log, o)[h].event, h), Rank(log[g].event, g))
  }

  /** The whole condition on one recording. */
  ghost predicate Keeps(rows: seq<Row>, log: Log, o: Obs) {
    Trim(o.hash) != "" ==> KeepsPlace(rows, log, o) && StaysOut(rows, log, o)
  }

  lemma RankHashes(rows: seq<Row>, log: Log, g: string)
    requires Refines(rows, log) && g in log
    ensures Rank(log[g].event, g) in Ranks(rows) <==> g in Hashes(rows)
  {
    if g in Hashes(rows) {
      var r :| r in rows && r.hash == g;
      assert RankOf(r) == Rank(log[g].event, g);
    }
  }

  lemma RefreshedStamp(r: Row, log: Log, o: Obs)
    requires Stamped(o) && Trim(o.hash) == r.hash != "" && r.hash in log && log[r.hash] == StampOf(r)
    ensures StampOf(RefreshRow(r, o)) == LogStep(log, o)[r.hash]
    ensures RefreshRow(r, o).hash == r.hash
  {
  }

  lemma BuiltStamp(log: Log, o: Obs)
    requires Stamped(o) && Trim(o.hash) != "" && (Trim(o.hash) in log && log[Trim(o.hash)].dated ==> o.posted != 0)
    ensures StampOf(BuildRow(o)) == LogStep(log, o)[Trim(o.hash)]
  {
  }

  lemma LogRanksStep(log: Log, o: Obs)
    requires Trim(o.hash) != ""
    ensures var h, log' := Trim(o.hash), LogStep(log, o);
            && log'.Keys == log.Keys + {h}
            && (forall g | g in log && g != h :: log'[g] == log[g])
            && LogRanks(log') ==
               (if h in log then LogRanks(log) - {Rank(log[h].event, h)} else LogRanks(log)) + {Rank(log'[h].event, h)}
  {
    var h, log' := Trim(o.hash), LogStep(log, o);
    forall a
      ensures a in LogRanks(log') <==> a.hash in log' && log'[a.hash].event == a.event
      ensures a in LogRanks(log) <==> a.hash in log && log[a.hash].event == a.event
    {
    }
  }

  /** Replacing one stored rank: the new set is a top set exactly if the new rank beats what was left out. */
  lemma ReplaceTop(t: set<Rank>, s: set<Rank>, x: Rank, y: Rank)
    requires IsTop(t, s) && x in t && y !in s - {x}
    ensures IsTop(t - {x} + {y}, s - {x} + {y}) <==> forall b | b in s - t :: Higher(y, b)
  {
    var t', s' := t - {x} + {y}, s - {x} + {y};
    assert |t'| == |t| && |s'| == |s|;
    assert s' - t' == s - t;
  }

  lemma DropBelow(t: set<Rank>, s: set<Rank>, x: Rank)
    requires IsTop(t, s) && x in s - t
    ensures IsTop(t, s - {x})
  {
    SubsetSize(t, s - {x});
  }

  /** Replacing a row by one of the same hash replaces its rank. */
  lemma RanksReplace(rows: seq<Row>, i: nat, r: Row)
    requires DistinctHashes(rows) && i < |rows| && r.hash == rows[i].hash
    ensures DistinctHashes(rows[i := r])
    ensures Ranks(rows[i := r]) == Ranks(rows) - {RankOf(rows[i])} + {RankOf(r)}
  {
    var rows' := rows[i := r];
    forall a | a in Ranks(rows) - {RankOf(rows[i])}
      ensures a in Ranks(rows')
    {
      var j :| 0 <= j < |rows| && RankOf(rows[j]) == a;
      assert rows'[j] == rows[j];
    }
    forall a | a in Ranks(rows')
      ensures a in Ranks(rows) - {RankOf(rows[i])} + {RankOf(r)}
    {
      var j :| 0 <= j < |rows| && RankOf(rows'[j]) == a;
      if j != i {
        assert rows[j].hash != rows[i].hash;
      }
    }
    assert rows'[i] == r;
  }

  lemma CurrentStored(rows: seq<Row>, log: Log, o: Obs, i: nat)
    requires DistinctHashes(rows) && Current(rows, log) && Stamped(o)
    requires i < |rows| && rows[i].hash == Trim(o.hash) != ""
    ensures Current(rows[i := RefreshRow(rows[i], o)], LogStep(log, o))
  {
    var rows' := rows[i := RefreshRow(rows[i], o)];
    RefreshedStamp(rows[i], log, o);
    LogRanksStep(log, o);
    forall j | 0 <= j < |rows'|
      ensures rows'[j].hash in LogStep(log, o) && LogStep(log, o)[rows'[j].hash] == StampOf(rows'[j])
    {
      if j != i {
        assert rows'[j] == rows[j] && rows[j].hash != rows[i].hash;
      }
    }
  }

  /** The stored hash case of StepExact. */
  lemma StepStored(rows: seq<Row>, log: Log, o: Obs, i: nat)
    requires Refines(rows, log) && Stamped(o)
    requires i < |rows| && rows[i].hash == Trim(o.hash) != ""
    ensures Refines(rows[i := RefreshRow(rows[i], o)], LogStep(log, o)) <==> KeepsPlace(rows, log, o)
  {
    var h, r' := rows[i].hash, RefreshRow(rows[i], o);
    var t, s, x, y := Ranks(rows), LogRanks(log), RankOf(rows[i]), RankOf(r');
    RefreshedStamp(rows[i], log, o);
    CurrentStored(rows, log, o, i);
    RanksReplace(rows, i, r');
    LogRanksStep(log, o);
    ReplaceTop(t, s, x, y);
    assert h in Hashes(rows);
    assert KeepsPlace(rows, log, o) <==> forall b | b in s - t :: Higher(y, b) by {
      forall g | g in log
        ensures Rank(log[g].event, g) in s - t <==> g !in Hashes(rows)
      {
        RankHashes(rows, log, g);
      }
      forall b | b in s - t
        ensures b.hash in log && b == Rank(log[b.hash].event, b.hash)
      {
      }
    }
  }

  lemma CurrentBuilt(rows: seq<Row>, log: Log, o: Obs)
    requires Current(rows, log) && Stamped(o) && !Undated(rows, log, o)
    requires Trim(o.hash) != "" && Trim(o.hash) !in Hashes(rows)
    ensures Current(rows + [BuildRow(o)], LogStep(log, o))
  {
    BuiltStamp(log, o);
    LogRanksStep(log, o);
    forall r | r in rows ensures r.hash in Hashes(rows) {}
  }

  /** The hash is new, or was recorded before and trimmed since. */
  lemma StepAbsent(rows: seq<Row>, log: Log, o: Obs)
    requires Refines(rows, log) && Stamped(o) && !Undated(rows, log, o)
    requires Trim(o.hash) != "" && Trim(o.hash) !in Hashes(rows)
    ensures Refines(TrimRows(rows + [BuildRow(o)]), LogStep(log, o))
  {
    var h, all := Trim(o.hash), rows + [BuildRow(o)];
    var t, s, x := Ranks(rows), LogRanks(log), RankOf(BuildRow(o));
    AppendDistinct(rows, BuildRow(o));
    TrimKeepsTop(all);
    CurrentBuilt(rows, log, o);
    BuiltStamp(log, o);
    LogRanksStep(log, o);
    if h in log {
      RankHashes(rows, log, h);
      DropBelow(t, s, Rank(log[h].event, h));
      TopExtend(t, s - {Rank(log[h].event, h)}, x, Ranks(TrimRows(all)));
    } else {
      TopExtend(t, s, x, Ranks(TrimRows(all)));
    }
  }

  /** One more rank on a full top set stays out exactly if everything in it is higher. */
  lemma OneOverFull(t: set<Rank>, x: Rank, t2: set<Rank>)
    requires |t| == MAX_SIGHTINGS && x !in t && IsTop(t2, t + {x})
    ensures t2 == t <==> forall a | a in t :: Higher(a, x)
    ensures x in t2 <==> t2 != t
  {
    if x !in t2 {
      SubsetSize(t2, t);
    } else {
      var y := Displaced(t, x, t2);
      assert Higher(x, y);
      HigherAsymmetric(x, y);
    }
  }

  /** A dated hash that was trimmed comes back without its date. */
  lemma StepUndated(rows: seq<Row>, log: Log, o: Obs)
    requires Refines(rows, log) && Stamped(o) && Undated(rows, log, o) && Trim(o.hash) != ""
    ensures Refines(TrimRows(rows + [BuildRow(o)]), LogStep(log, o)) <==> StaysOut(rows, log, o)
  {
    var h, b := Trim(o.hash), BuildRow(o);
    RankHashes(rows, log, h);
    FullWhenTrimmed(Ranks(rows), LogRanks(log), Rank(log[h].event, h));
    OneRowOver(rows, b);
    StaysOutRank(rows, log, o);
    if b in TrimRows(rows + [b]) {
      assert StampOf(b) != log[h];
    }
  }

  lemma StaysOutRank(rows: seq<Row>, log: Log, o: Obs)
    requires Stamped(o) && Undated(rows, log, o)
    ensures StaysOut(rows, log, o) <==> forall a | a in Ranks(rows) :: Higher(a, RankOf(BuildRow(o)))
  {
    assert RankOf(BuildRow(o)) == Rank(EventOf(o), Trim(o.hash));
    forall r | r in rows ensures RankOf(r) in Ranks(rows) {}
  }

  /** One row on a full timeline leaves its ranks as they were exactly if it ranks below all of them. */
  lemma OneRowOver(rows: seq<Row>, b: Row)
    requires DistinctHashes(rows) && |Ranks(rows)| == MAX_SIGHTINGS && b.hash !in Hashes(rows)
    ensures var rows' := TrimRows(rows + [b]);
            && DistinctHashes(rows') && (forall r | r in rows' :: r in rows || r == b)
            && (b !in rows' <==> forall a | a in Ranks(rows) :: Higher(a, RankOf(b)))
            && (b !in rows' ==> Ranks(rows') == Ranks(rows))
  {
    var t, x, rows' := Ranks(rows), RankOf(b), TrimRows(rows + [b]);
    AppendDistinct(rows, b);
    TrimKeepsTop(rows + [b]);
    assert x !in t;
    OneOverFull(t, x, Ranks(rows'));
    assert x in Ranks(rows') <==> b in rows';
  }

  lemma FullWhenTrimmed(t: set<Rank>, s: set<Rank>, x: Rank)
    requires IsTop(t, s) && x in s - t
    ensures |t| == MAX_SIGHTINGS
  {
    SubsetSize(t, s);
  }

  /**
   * One recording keeps the stored rows equal to the top of the history exactly when a stored
   * hash does not fall behind a trimmed one, and a trimmed hash that returns without its date
   * does not rise above a stored one.
   */
  lemma StepExact(rows: seq<Row>, log: Log, o: Obs)
    requires Refines(rows, log) && Stamped(o)
    ensures Refines(Record(rows, o), LogStep(log, o)) <==> Keeps(rows, log, o)
  {
    if Trim(o.hash) != "" {
      var i := IndexOfHash(rows, Trim(o.hash));
      DistinctSize(rows);
      if i < |rows| {
        assert rows[i].hash in Hashes(rows);
        StepStored(rows, log, o, i);
      } else {
        assert Trim(o.hash) !in Hashes(rows);
        if Undated(rows, log, o) {
          StepUndated(rows, log, o);
        } else {
          StepAbsent(rows, log, o);
        }
      }
    }
  }

  // ---------------------------------------------------------------- whole runs

  function RecordAll(rows: seq<Row>, os: seq<Obs>): seq<Row> {
    if os == [] then rows else Record(RecordAll(rows, os[..|os| - 1]), os[|os| - 1])
  }

  function LogAll(log: Log, os: seq<Obs>): Log {
    if os == [] then log else LogStep(LogAll(log, os[..|os| - 1]), os[|os| - 1])
  }

  /** Every recording of the run meets the condition, at the rows and the history it finds. */
  ghost predicate Kept(rows: seq<Row>, log: Log, os: seq<Obs>) {
    os == [] ||
    var before, o := os[..|os| - 1], os[|os| - 1];
    Kept(rows, log, before) && Keeps(RecordAll(rows, before), LogAll(log, before), o)
  }

  /** The timeline holds the twenty latest of the history after every recording of the run. */
  ghost predicate AlwaysRefines(rows: seq<Row>, log: Log, os: seq<Obs>) {
    Refines(RecordAll(rows, os), LogAll(log, os)) && (os == [] || AlwaysRefines(rows, log, os[..|os| - 1]))
  }

  /** The timeline never loses the top of the history exactly in the runs that meet the condition throughout. */
  lemma {:induction false} RunExact(rows: seq<Row>, log: Log, os: seq<Obs>)
    requires Refines(rows, log) && forall o | o in os :: Stamped(o)
    ensures AlwaysRefines(rows, log, os) <==> Kept(rows, log, os)
  {
    if os != [] {
      var before, o := os[..|os| - 1], os[|os| - 1];
      RunExact(rows, log, before);
      if AlwaysRefines(rows, log, before) {
        assert o in os && Refines(RecordAll(rows, before), LogAll(log, before));
        StepExact(RecordAll(rows, before), LogAll(log, before), o);
      }
    }
  }

  /** Over every run that meets the condition the timeline ends as the top twenty of everything recorded. */
  lemma RunRefines(rows: seq<Row>, log: Log, os: seq<Obs>)
    requires Refines(rows, log) && (forall o | o in os :: Stamped(o)) && Kept(rows, log, os)
    ensures Refines(RecordAll(rows, os), LogAll(log, os))
  {
    RunExact(rows, log, os);
  }

  /** Re-recording never moves a hash's event time back, nor drops its date. */
  predicate Rising(log: Log, o: Obs) {
    var h := Trim(o.hash);
    h in log ==> LogStep(log, o)[h].event >= log[h].event && (log[h].dated ==> o.posted != 0)
  }

  predicate Steady(log: Log, os: seq<Obs>) {
    os == [] ||
    var before, o := os[..|os| - 1], os[|os| - 1];
    Steady(log, before) && Stamped(o) && Rising(LogAll(log, before), o)
  }

  lemma RisingKeeps(rows: seq<Row>, log: Log, o: Obs)
    requires Refines(rows, log) && Rising(log, o)
    ensures Keeps(rows, log, o)
  {
    var h := Trim(o.hash);
    if h != "" && h in Hashes(rows) {
      RankHashes(rows, log, h);
      forall g | g in log && g !in Hashes(rows)
        ensures Higher(Rank(LogStep(log, o)[h].event, h), Rank(log[g].event, g))
      {
        RankHashes(rows, log, g);
        assert Higher(Rank(log[h].event, h), Rank(log[g].event, g));
      }
    }
  }

  /** A run whose re-recordings never go back in time meets the condition, whatever was trimmed and recorded again. */
  lemma {:induction false} SteadyKept(rows: seq<Row>, log: Log, os: seq<Obs>)
    requires Refines(rows, log) && Steady(log, os)
    ensures Kept(rows, log, os) && Refines(RecordAll(rows, os), LogAll(log, os))
  {
    if os != [] {
      var before, o := os[..|os| - 1], os[|os| - 1];
      SteadyKept(rows, log, before);
      RisingKeeps(RecordAll(rows, before), LogAll(log, before), o);
      StepExact(RecordAll(rows, before), LogAll(log, before), o);
    }
  }

  lemma RunFromEmpty(os: seq<Obs>)
    requires Steady(map[], os)
    ensures Refines(RecordAll([], os), LogAll(map[], os))
  {
    EmptyRefines();
    SteadyKept([], map[], os);
  }

  /** Every hash of a run, with its post time. */
  function PostRanks(os: seq<Obs>, postTime: string -> Time): set<Rank> {
    set o | o in os :: Rank(postTime(Trim(o.hash)), Trim(o.hash))
  }

  /** The run theorem for sources that give every hash one fixed post time. */
  lemma FixedPostTimes(os: seq<Obs>, postTime: string -> Time)
    requires forall o | o in os :: Trim(o.hash) != "" && o.posted == postTime(Trim(o.hash)) != 0
    ensures DistinctHashes(RecordAll([], os))
    ensures IsTop(Ranks(RecordAll([], os)), PostRanks(os, postTime))
  {
    FixedSteady(os, postTime);
    RunFromEmpty(os);
    FixedRanks(os, postTime);
  }

  lemma FixedRanks(os: seq<Obs>, postTime: string -> Time)
    requires forall o | o in os :: Trim(o.hash) != "" && o.posted == postTime(Trim(o.hash)) != 0
    ensures LogRanks(LogAll(map[], os)) == PostRanks(os, postTime)
  {
    var log := LogAll(map[], os);
    FixedLog(os, postTime);
    forall o | o in os
      ensures Rank(postTime(Trim(o.hash)), Trim(o.hash)) in LogRanks(log)
    {
      assert Trim(o.hash) in log;
    }
  }

  lemma EmptyRefines()
    ensures Refines([], map[])
  {
    assert Ranks([]) == {} && LogRanks(map[]) == {};
  }

  lemma {:induction false} FixedSteady(os: seq<Obs>, postTime: string -> Time)
    requires forall o | o in os :: Trim(o.hash) != "" && o.posted == postTime(Trim(o.hash)) != 0
    ensures Steady(map[], os)
  {
    if os != [] {
      FixedSteady(os[..|os| - 1], postTime);
      FixedLog(os[..|os| - 1], postTime);
    }
  }

  lemma {:induction false} FixedLog(os: seq<Obs>, postTime: string -> Time)
    requires forall o | o in os :: Trim(o.hash) != "" && o.posted == postTime(Trim(o.hash)) != 0
    ensures LogAll(map[], os) == map h | h in (set o | o in os :: Trim(o.hash)) :: Stamp(true, postTime(h))
  {
    if os != [] {
      var before, o := os[..|os| - 1], os[|os| - 1];
      FixedLog(before, postTime);
      assert LogAll(map[], os) == LogAll(map[], before)[Trim(o.hash) := Stamp(true, o.posted)];
      assert os == before + [o];
    }
  }

  /**
   * Without the condition the property fails: once anything has been trimmed, re-recording any
   * stored hash with an early enough post time leaves a row in the timeline that the history
   * ranks below a trimmed one.
   */
  lemma EarlierPostTimeBreaks(rows: seq<Row>, log: Log, r: Row, g: string, o: Obs) returns (o': Obs)
    requires Refines(rows, log) && r in rows && r.hash != "" && Trimmed(r.hash)
    requires g in log && g !in Hashes(rows)
    ensures o' == o.(hash := r.hash, posted := o'.posted) && Stamped(o')
    ensures !Refines(Record(rows, o'), LogStep(log, o'))
  {
    var e := log[g].event;
    o' := o.(hash := r.hash, posted := if e - 1 == 0 then -1 else e - 1);
    assert Trim(o'.hash) == r.hash && r.hash in Hashes(rows);
    StepExact(rows, log, o');
  }

  /** An instant after all stored events. */
  function AfterAll(rows: seq<Row>): (t: Time)
    ensures t > 0 && forall r | r in rows :: Event(r) < t
  {
    if rows == [] then 1
    else
      var t, r := AfterAll(rows[..|rows| - 1]), rows[|rows| - 1];
      assert rows == rows[..|rows| - 1] + [r];
      if Event(r) < t then t else Event(r) + 1
  }

  /**
   * The other failing half: a dated hash that was trimmed and is seen again late, without its
   * post time, jumps to the head of the timeline, although no stored hash moved.
   */
  lemma UndatedReturnBreaks(rows: seq<Row>, log: Log, g: string, o: Obs) returns (o': Obs)
    requires Refines(rows, log) && g != "" && Trimmed(g) && g in log && g !in Hashes(rows) && log[g].dated
    ensures o' == o.(hash := g, posted := 0, seen := o'.seen) && Stamped(o') && KeepsPlace(rows, log, o')
    ensures !Refines(Record(rows, o'), LogStep(log, o'))
  {
    o' := o.(hash := g, posted := 0, seen := AfterAll(rows));
    assert Trim(o'.hash) == g;
    RankHashes(rows, log, g);
    FullWhenTrimmed(Ranks(rows), LogRanks(log), Rank(log[g].event, g));
    DistinctSize(rows);
    var r := rows[0];
    assert r in rows && !Higher(RankOf(r), Rank(EventOf(o'), g));
    StepExact(rows, log, o');
  }

  /** A stored hash seen again without its post time keeps its date and its place. */
  lemma UndatedRefreshHarmless(rows: seq<Row>, log: Log, o: Obs)
    requires Refines(rows, log) && Stamped(o) && Trim(o.hash) in Hashes(rows) && o.posted == 0
    requires Trim(o.hash) in log && log[Trim(o.hash)].dated
    ensures Refines(Record(rows, o), LogStep(log, o)) && LogStep(log, o) == log
  {
    if Trim(o.hash) != "" {
      StoredKeepsPlace(rows, log, o);
      StepExact(rows, log, o);
    }
  }

  lemma StoredKeepsPlace(rows: seq<Row>, log: Log, o: Obs)
    requires Refines(rows, log) && Trim(o.hash) != "" && Trim(o.hash) in Hashes(rows) && LogStep(log, o) == log
    requires Trim(o.hash) in log
    ensures KeepsPlace(rows, log, o)
  {
    var h := Trim(o.hash);
    RankHashes(rows, log, h);
    forall g | g in log && g !in Hashes(rows)
      ensures Higher(Rank(log[h].event, h), Rank(log[g].event, g))
    {
      RankHashes(rows, log, g);
    }
  }
}
