/** The capped timeline and what it keeps of the full history. */
module Timeline {
  import opened Text
  import opened Entity

  /** Timeline order: later event first, ties by greater hash. */
  datatype Rank = Rank(event: Time, hash: string)

  predicate Higher(a: Rank, b: Rank) {
    a.event > b.event || (a.event == b.event && Less(b.hash, a.hash))
  }

  function RankOf(r: Row): Rank {
    Rank(Event(r), r.hash)
  }

  function Ranks(rows: seq<Row>): set<Rank> {
    set r | r in rows :: RankOf(r)
  }

  function Hashes(rows: seq<Row>): set<string> {
    set r | r in rows :: r.hash
  }

  predicate DistinctHashes(rows: seq<Row>) {
    forall i, j :: 0 <= i < j < |rows| ==> rows[i].hash != rows[j].hash
  }

  function IndexOfHash(rows: seq<Row>, h: string): (i: nat)
    ensures i <= |rows|
    ensures i < |rows| ==> rows[i].hash == h
    ensures forall j :: 0 <= j < i ==> rows[j].hash != h
  {
    if rows == [] || rows[0].hash == h then 0 else 1 + IndexOfHash(rows[1..], h)
  }

  lemma HigherAsymmetric(a: Rank, b: Rank)
    requires Higher(a, b)
    ensures !Higher(b, a) && a != b
  {
    if a.event == b.event {
      LessAsymmetric(b.hash, a.hash);
    }
  }

  lemma HigherTransitive(a: Rank, b: Rank, c: Rank)
    requires Higher(a, b) && Higher(b, c)
    ensures Higher(a, c)
  {
    if a.event == b.event == c.event {
      LessTransitive(c.hash, b.hash, a.hash);
    }
  }

  lemma HigherTotal(a: Rank, b: Rank)
    ensures a == b || Higher(a, b) || Higher(b, a)
  {
    LessTotal(a.hash, b.hash);
  }

  // ---------------------------------------------------------------- sorting

  /** Rows in timeline order, each above all that follow. */
  predicate Descending(rows: seq<Row>) {
    forall i, j :: 0 <= i < j < |rows| ==> !Higher(RankOf(rows[j]), RankOf(rows[i]))
  }

  function InsertRow(r: Row, rows: seq<Row>): seq<Row> {
    if rows == [] then [r]
    else if Higher(RankOf(rows[0]), RankOf(r)) then [rows[0]] + InsertRow(r, rows[1..])
    else [r] + rows
  }

  /** sort.Slice with the timeline comparison; on distinct hashes every sort gives this result. */
  function SortRows(rows: seq<Row>): seq<Row> {
    if rows == [] then [] else InsertRow(rows[0], SortRows(rows[1..]))
  }

  lemma {:induction false} InsertRowKeeps(r: Row, rows: seq<Row>)
    ensures multiset(InsertRow(r, rows)) == multiset{r} + multiset(rows)
    ensures forall x | x in InsertRow(r, rows) :: x == r || x in rows
  {
    if rows != [] && Higher(RankOf(rows[0]), RankOf(r)) {
      assert rows == [rows[0]] + rows[1..];
      InsertRowKeeps(r, rows[1..]);
    }
  }

  lemma {:induction false} InsertRowSorts(r: Row, rows: seq<Row>)
    requires Descending(rows)
    ensures Descending(InsertRow(r, rows))
  {
    if rows != [] && Higher(RankOf(rows[0]), RankOf(r)) {
      InsertRowKeeps(r, rows[1..]);
      InsertRowSorts(r, rows[1..]);
      HigherAsymmetric(RankOf(rows[0]), RankOf(r));
      var rest := InsertRow(r, rows[1..]);
      forall j | 0 <= j < |rest|
        ensures !Higher(RankOf(rest[j]), RankOf(rows[0]))
      {
        assert rest[j] == r || rest[j] in rows[1..];
      }
    } else if rows != [] {
      forall j | 0 <= j < |rows|
        ensures !Higher(RankOf(rows[j]), RankOf(r))
      {
        if Higher(RankOf(rows[j]), RankOf(r)) {
          HigherTotal(RankOf(rows[0]), RankOf(rows[j]));
          if Higher(RankOf(rows[0]), RankOf(rows[j])) {
            HigherTransitive(RankOf(rows[0]), RankOf(rows[j]), RankOf(r));
          }
        }
      }
    }
  }

  lemma {:induction false} SortRowsSorts(rows: seq<Row>)
    ensures Descending(SortRows(rows))
    ensures multiset(SortRows(rows)) == multiset(rows)
  {
    if rows != [] {
      SortRowsSorts(rows[1..]);
      InsertRowSorts(rows[0], SortRows(rows[1..]));
      InsertRowKeeps(rows[0], SortRows(rows[1..]));
      assert rows == [rows[0]] + rows[1..];
    }
  }

  // ---------------------------------------------------------------- the capped timeline

  /** sighting.go's trimEntitySightings */
  function TrimRows(rows: seq<Row>): seq<Row> {
    if |rows| <= MAX_SIGHTINGS then rows
    else
      SortRowsSorts(rows);
      assert |multiset(rows)| == |rows|;
      SortRows(rows)[..MAX_SIGHTINGS]
  }

  /** sighting.go's appendOrRefreshEntitySighting */
  function Record(rows: seq<Row>, o: Obs): seq<Row> {
    var h := Trim(o.hash);
    if h == "" then rows
    else
      var i := IndexOfHash(rows, h);
      TrimRows(if i < |rows| then rows[i := RefreshRow(rows[i], o)] else rows + [BuildRow(o)])
  }

  lemma RecordFound(rows: seq<Row>, o: Obs, i: nat)
    requires i < |rows| && rows[i].hash == Trim(o.hash) != "" && forall j :: 0 <= j < i ==> rows[j].hash != Trim(o.hash)
    ensures Record(rows, o) == TrimRows(rows[i := RefreshRow(rows[i], o)])
  {
    assert IndexOfHash(rows, Trim(o.hash)) == i;
  }

  lemma RecordMissing(rows: seq<Row>, o: Obs)
    requires Trim(o.hash) != "" && Trim(o.hash) !in Hashes(rows)
    ensures Record(rows, o) == TrimRows(rows + [BuildRow(o)])
  {
    forall j | 0 <= j < |rows| ensures rows[j].hash in Hashes(rows) {}
  }

  /** t holds the (at most) twenty highest ranks of s. */
  ghost predicate IsTop(t: set<Rank>, s: set<Rank>) {
    && t <= s
    && |t| == (if |s| <= MAX_SIGHTINGS then |s| else MAX_SIGHTINGS)
    && forall a, b | a in t && b in s - t :: Higher(a, b)
  }

  lemma {:induction false} InsertDistinct(r: Row, rows: seq<Row>)
    requires DistinctHashes(rows) && r.hash !in Hashes(rows)
    ensures DistinctHashes(InsertRow(r, rows))
    ensures Hashes(InsertRow(r, rows)) == {r.hash} + Hashes(rows)
  {
    if rows != [] {
      assert rows == [rows[0]] + rows[1..];
      if Higher(RankOf(rows[0]), RankOf(r)) {
        var rest := InsertRow(r, rows[1..]);
        InsertDistinct(r, rows[1..]);
        assert Hashes([rows[0]] + rest) == {rows[0].hash} + Hashes(rest);
        assert rows[0].hash !in Hashes(rest);
        forall j | 0 <= j < |rest| ensures rest[j].hash in Hashes(rest) {}
      } else {
        forall j | 0 <= j < |rows| ensures rows[j].hash in Hashes(rows) {}
      }
    }
  }

  lemma {:induction false} SortDistinct(rows: seq<Row>)
    requires DistinctHashes(rows)
    ensures DistinctHashes(SortRows(rows))
    ensures Hashes(SortRows(rows)) == Hashes(rows)
  {
    if rows != [] {
      SortDistinct(rows[1..]);
      assert rows == [rows[0]] + rows[1..];
      assert rows[0].hash !in Hashes(rows[1..]);
      InsertDistinct(rows[0], SortRows(rows[1..]));
    }
  }

  /** With distinct hashes, rows, ranks and hashes are equally many. */
  lemma {:induction false} DistinctSize(rows: seq<Row>)
    requires DistinctHashes(rows)
    ensures |Ranks(rows)| == |rows| && |Hashes(rows)| == |rows|
  {
    if rows != [] {
      var rest := rows[1..];
      DistinctSize(rest);
      assert rows == [rows[0]] + rest;
      assert Ranks(rows) == {RankOf(rows[0])} + Ranks(rest);
      assert Hashes(rows) == {rows[0].hash} + Hashes(rest);
      forall r | r in rest ensures r.hash != rows[0].hash {}
    }
  }

  lemma AppendDistinct(rows: seq<Row>, r: Row)
    requires DistinctHashes(rows) && r.hash !in Hashes(rows)
    ensures DistinctHashes(rows + [r])
    ensures Ranks(rows + [r]) == Ranks(rows) + {RankOf(r)}
  {
    forall j | 0 <= j < |rows| ensures rows[j].hash in Hashes(rows) {}
    assert (rows + [r])[|rows|] == r;
  }

  lemma SortedRows(rows: seq<Row>)
    requires DistinctHashes(rows)
    ensures var s := SortRows(rows);
            |s| == |rows| && Descending(s) && DistinctHashes(s) && Ranks(s) == Ranks(rows)
            && forall r :: r in s <==> r in rows
  {
    var s := SortRows(rows);
    SortRowsSorts(rows);
    SortDistinct(rows);
    assert |multiset(s)| == |s| && |multiset(rows)| == |rows|;
    forall r ensures r in s <==> r in rows {
      assert r in multiset(s) <==> r in multiset(rows);
    }
  }

  /** Trimming keeps exactly the twenty highest rows and drops nothing from a shorter timeline. */
  lemma TrimKeepsTop(rows: seq<Row>)
    requires DistinctHashes(rows)
    ensures var t := TrimRows(rows);
            DistinctHashes(t) && IsTop(Ranks(t), Ranks(rows)) && (forall r | r in t :: r in rows)
            && |t| == (if |rows| <= MAX_SIGHTINGS then |rows| else MAX_SIGHTINGS)
  {
    DistinctSize(rows);
    if |rows| > MAX_SIGHTINGS {
      SortedRows(rows);
      PrefixIsTop(SortRows(rows));
    }
  }

  lemma PrefixIsTop(s: seq<Row>)
    requires Descending(s) && DistinctHashes(s) && |s| > MAX_SIGHTINGS
    ensures var t := s[..MAX_SIGHTINGS];
            DistinctHashes(t) && IsTop(Ranks(t), Ranks(s)) && forall r | r in t :: r in s
  {
    var t := s[..MAX_SIGHTINGS];
    DistinctSize(s);
    DistinctSize(t);
    forall a, b | a in Ranks(t) && b in Ranks(s) - Ranks(t)
      ensures Higher(a, b)
    {
      var i :| 0 <= i < MAX_SIGHTINGS && RankOf(s[i]) == a;
      var j :| 0 <= j < |s| && RankOf(s[j]) == b;
      if j < MAX_SIGHTINGS {
        assert s[j] in t;
      }
      HigherTotal(a, b);
    }
  }

  // ---------------------------------------------------------------- top-twenty algebra

  lemma SubsetSize<T>(a: set<T>, b: set<T>)
    requires a <= b
    ensures |a| <= |b|
    ensures |a| == |b| ==> a == b
  {
    assert b == a + (b - a);
  }

  lemma TopUnique(t: set<Rank>, u: set<Rank>, s: set<Rank>)
    requires IsTop(t, s) && IsTop(u, s)
    ensures t == u
  {
    if t != u {
      if t <= u {
        SubsetSize(t, u);
      } else if u <= t {
        SubsetSize(u, t);
      } else {
        var a :| a in t && a !in u;
        var b :| b in u && b !in t;
        assert Higher(a, b) && Higher(b, a);
        HigherAsymmetric(a, b);
      }
    }
  }

  /** Streaming: trimming after one more rank loses nothing the full set would have kept. */
  lemma TopExtend(t: set<Rank>, s: set<Rank>, x: Rank, t2: set<Rank>)
    requires IsTop(t, s) && IsTop(t2, t + {x})
    ensures IsTop(t2, s + {x})
  {
    if |s| <= MAX_SIGHTINGS {
      SubsetSize(t, s);
    } else {
      SubsetSize(t, t + {x});
      SubsetSize(s, s + {x});
      assert |t2| == MAX_SIGHTINGS;
      forall a, b | a in t2 && b in (s + {x}) - t2
        ensures Higher(a, b)
      {
        if b !in t + {x} && a !in t {
          var y := Displaced(t, x, t2);
          assert Higher(a, y) && Higher(y, b);
          HigherTransitive(a, y, b);
        }
      }
    }
  }

  /** If x entered a full top set, some old rank left it. */
  lemma Displaced(t: set<Rank>, x: Rank, t2: set<Rank>) returns (y: Rank)
    requires x !in t && x in t2 && t2 <= t + {x} && |t2| == |t|
    ensures y in t && y !in t2
  {
    if t <= t2 {
      assert t + {x} <= t2;
      SubsetSize(t + {x}, t2);
      assert false;
    }
    y :| y in t && y !in t2;
  }
}
