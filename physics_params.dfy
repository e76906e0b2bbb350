/** get_info: pick one value per physics parameter out of the rows the
    metadata catalogue returns for an EVNT dataset, and rename the three
    parameters a weight record needs. The catalogue query itself is foreign:
    its rows are the input. */
module PhysicsParams {
  import opened Common

  /** One catalogue row; `insertTime` is the parsed `insert_time` in
      seconds. */
  datatype Row = Row(paramName: string, paramValue: string, insertTime: int)

  // ---------------------------------------------------------------------
  // sorted(rows, key=insert_time): a stable sort

  /** Put `r` before the first row of `s` that is not older than it. */
  function InsertByTime(r: Row, s: seq<Row>): seq<Row>
  {
    if s == [] || r.insertTime <= s[0].insertTime then [r] + s
    else [s[0]] + InsertByTime(r, s[1..])
  }

  /** Python's `sorted` on the insertion time (an insertion sort: the same
      result as any stable sort). */
  function SortByTime(rows: seq<Row>): seq<Row>
  {
    if rows == [] then [] else InsertByTime(rows[0], SortByTime(rows[1..]))
  }

  ghost predicate SortedByTime(s: seq<Row>)
  {
    forall i, j :: 0 <= i < j < |s| ==> s[i].insertTime <= s[j].insertTime
  }

  /** The rows of `s` inserted at time `t`, in their order in `s`. */
  function AtTime(s: seq<Row>, t: int): seq<Row>
  {
    if s == [] then []
    else (if s[0].insertTime == t then [s[0]] else []) + AtTime(s[1..], t)
  }

  lemma {:induction false} InsertByTimeKeepsRows(r: Row, s: seq<Row>)
    ensures multiset(InsertByTime(r, s)) == multiset(s) + multiset{r}
  {
    if s != [] && r.insertTime > s[0].insertTime {
      InsertByTimeKeepsRows(r, s[1..]);
      assert s == [s[0]] + s[1..];
    }
  }

  lemma {:induction false} InsertByTimeSorted(r: Row, s: seq<Row>)
    requires SortedByTime(s)
    ensures SortedByTime(InsertByTime(r, s))
  {
    if s != [] && r.insertTime > s[0].insertTime {
      var rest := InsertByTime(r, s[1..]);
      InsertByTimeSorted(r, s[1..]);
      InsertByTimeKeepsRows(r, s[1..]);
      forall k | 0 <= k < |rest| ensures s[0].insertTime <= rest[k].insertTime {
        assert rest[k] in multiset(rest);
        assert rest[k] == r || rest[k] in multiset(s[1..]);
      }
    }
  }

  lemma AtTimeCons(x: Row, s: seq<Row>, t: int)
    ensures AtTime([x] + s, t) == (if x.insertTime == t then [x] else []) + AtTime(s, t)
  {
    assert ([x] + s)[1..] == s;
  }

  lemma {:induction false} InsertByTimeAtTime(r: Row, s: seq<Row>, t: int)
    ensures AtTime(InsertByTime(r, s), t) == (if r.insertTime == t then [r] else []) + AtTime(s, t)
  {
    if s == [] || r.insertTime <= s[0].insertTime {
      AtTimeCons(r, s, t);
    } else {
      var rest := InsertByTime(r, s[1..]);
      assert InsertByTime(r, s) == [s[0]] + rest;
      AtTimeCons(s[0], rest, t);
      InsertByTimeAtTime(r, s[1..], t);
      assert s == [s[0]] + s[1..];
      AtTimeCons(s[0], s[1..], t);
    }
  }

  /** `sorted` orders the rows by time, keeps every row, and keeps rows with
      equal times in their original order: that is, it is the stable sort. */
  lemma {:induction false} SortByTimeIsStableSort(rows: seq<Row>)
    ensures SortedByTime(SortByTime(rows))
    ensures multiset(SortByTime(rows)) == multiset(rows)
    ensures forall t :: AtTime(SortByTime(rows), t) == AtTime(rows, t)
  {
    if rows != [] {
      var rest := SortByTime(rows[1..]);
      SortByTimeIsStableSort(rows[1..]);
      InsertByTimeSorted(rows[0], rest);
      InsertByTimeKeepsRows(rows[0], rest);
      forall t ensures AtTime(SortByTime(rows), t) == AtTime(rows, t) {
        InsertByTimeAtTime(rows[0], rest, t);
      }
      assert rows == [rows[0]] + rows[1..];
    }
  }

  // ---------------------------------------------------------------------
  // itertools.groupby: the first row of each run of equal names

  /** Row `j` of `s` starts a run of rows with the same name. */
  ghost predicate RunStart(s: seq<Row>, j: int)
  {
    0 <= j < |s| && (j == 0 || s[j - 1].paramName != s[j].paramName)
  }

  /** The `results` dictionary after the groupby loop over `s`: each run
      writes its first row's value under its name, a later run of a name
      overwriting an earlier one. */
  function RunFirsts(s: seq<Row>): Record
  {
    if s == [] then map[]
    else
      var last := s[|s| - 1];
      if |s| >= 2 && s[|s| - 2].paramName == last.paramName then RunFirsts(s[..|s| - 1])
      else RunFirsts(s[..|s| - 1])[last.paramName := Str(last.paramValue)]
  }

  ghost function Names(s: seq<Row>): set<string>
  {
    set i | 0 <= i < |s| :: s[i].paramName
  }

  /** Every parameter name of the rows ends up in `results`, and no other. */
  lemma {:induction false} RunFirstsKeys(s: seq<Row>)
    ensures RunFirsts(s).Keys == Names(s)
  {
    if s != [] {
      var front := s[..|s| - 1];
      RunFirstsKeys(front);
      assert forall i :: 0 <= i < |front| ==> front[i] == s[i];
      assert Names(s) == Names(front) + {s[|s| - 1].paramName};
    }
  }

  /** A name's value is the first value of its LAST run. */
  lemma {:induction false} RunFirstsValue(s: seq<Row>, j: nat)
    requires RunStart(s, j)
    requires forall k :: j < k < |s| && RunStart(s, k) ==> s[k].paramName != s[j].paramName
    ensures s[j].paramName in RunFirsts(s)
    ensures RunFirsts(s)[s[j].paramName] == Str(s[j].paramValue)
  {
    var front := s[..|s| - 1];
    if j < |s| - 1 {
      forall k | j < k < |front| && RunStart(front, k)
        ensures front[k].paramName != front[j].paramName
      {
        assert RunStart(s, k);
      }
      RunFirstsValue(front, j);
    }
  }

  /** The groupby choice is not "the newest value": two rows for one
      parameter in a row keep the older one. */
  lemma GroupByKeepsOlderValue()
    ensures var rows := [Row("crossSection", "1.0", 10), Row("crossSection", "2.0", 20)];
      "crossSection" in RunFirsts(SortByTime(rows))
      && RunFirsts(SortByTime(rows))["crossSection"] == Str("1.0")
  {
    var rows := [Row("crossSection", "1.0", 10), Row("crossSection", "2.0", 20)];
    assert SortByTime(rows[1..]) == [rows[1]];
    assert SortByTime(rows) == rows;
    RunFirstsValue(rows, 0);
  }

  // ---------------------------------------------------------------------
  // The three renamings

  const CatalogueKeys: set<string> := {"crossSection", "genFiltEff", "kFactor"}
  const RecordKeys: set<string> := {"cross section", "filter efficiency", "k-factor"}

  /** `float(results.pop(key, 0.0))`. */
  function PoppedFloat(m: Record, key: string, parse: string -> Option<real>): Result<real>
  {
    ToFloat(if key in m then m[key] else Float(0.0), parse)
  }

  /** `results[to] = float(results.pop(from, 0.0))` */
  function PopAsFloat(m: Record, from: string, to: string, parse: string -> Option<real>): Result<Record>
  {
    var x :- PoppedFloat(m, from, parse);
    Ok((m - {from})[to := Float(x)])
  }

  function Renamed(m: Record, parse: string -> Option<real>): Result<Record>
  {
    var m1 :- PopAsFloat(m, "crossSection", "cross section", parse);
    var m2 :- PopAsFloat(m1, "genFiltEff", "filter efficiency", parse);
    PopAsFloat(m2, "kFactor", "k-factor", parse)
  }

  /** What get_info returns for the catalogue rows: the groupby selection
      over the time-sorted rows, renamed. */
  function InfoOf(rows: seq<Row>, parse: string -> Option<real>): Result<Record>
  {
    Renamed(RunFirsts(SortByTime(rows)), parse)
  }

  /** The groupby loop of get_info: for each run of rows with the same
      name, `results[name]` is set to the run's first value, then `break`. */
  method FirstOfEachRun(sorted: seq<Row>) returns (results: Record)
    ensures results == RunFirsts(sorted)
  {
    results := map[];
    var i := 0;
    while i < |sorted|
      invariant 0 <= i <= |sorted|
      invariant results == RunFirsts(sorted[..i])
    {
      assert sorted[..i + 1][..i] == sorted[..i];
      if i == 0 || sorted[i].paramName != sorted[i - 1].paramName {
        results := results[sorted[i].paramName := Str(sorted[i].paramValue)];
      }
      i := i + 1;
    }
    assert sorted[..i] == sorted;
  }

  /** What get_info returns given the outcome of its catalogue query: the
      query's exception, or InfoOf the rows. */
  function QueryInfo(query: Result<seq<Row>>, parse: string -> Option<real>): Result<Record>
  {
    var rows :- query;
    InfoOf(rows, parse)
  }

  /** get_info. The body follows the source: the query, the sort, filling
      `results` run by run, then the three pops. */
  method GetInfo(query: Result<seq<Row>>, parse: string -> Option<real>) returns (r: Result<Record>)
    ensures query.Err? ==> r == Err(query.error)
    ensures query.Ok? ==> r == InfoOf(query.value, parse)
  {
    var rows :- query;
    var results := FirstOfEachRun(SortByTime(rows));
    var crossSection :- PoppedFloat(results, "crossSection", parse);
    results := (results - {"crossSection"})["cross section" := Float(crossSection)];
    var filterEfficiency :- PoppedFloat(results, "genFiltEff", parse);
    results := (results - {"genFiltEff"})["filter efficiency" := Float(filterEfficiency)];
    var kFactor :- PoppedFloat(results, "kFactor", parse);
    results := (results - {"kFactor"})["k-factor" := Float(kFactor)];
    return Ok(results);
  }

  /** The renaming fails exactly when one of the three catalogue values
      cannot be read as a float; otherwise the three record keys replace the
      three catalogue keys, each holding the float of the catalogue value or
      0.0, and every other entry is kept. */
  lemma RenamedSpec(m: Record, parse: string -> Option<real>)
    ensures Renamed(m, parse).Ok? <==>
      PoppedFloat(m, "crossSection", parse).Ok? && PoppedFloat(m, "genFiltEff", parse).Ok?
      && PoppedFloat(m, "kFactor", parse).Ok?
    ensures Renamed(m, parse).Ok? ==>
      var r := Renamed(m, parse).value;
      && r.Keys == (m.Keys - CatalogueKeys) + RecordKeys
      && r["cross section"] == Float(PoppedFloat(m, "crossSection", parse).value)
      && r["filter efficiency"] == Float(PoppedFloat(m, "genFiltEff", parse).value)
      && r["k-factor"] == Float(PoppedFloat(m, "kFactor", parse).value)
      && forall n :: n in m && n !in CatalogueKeys && n !in RecordKeys ==> n in r && r[n] == m[n]
  {
  }

  /** get_info's keys: every parameter name of the rows except the three
      catalogue names, plus the three record names. */
  lemma GetInfoKeys(rows: seq<Row>, parse: string -> Option<real>)
    requires InfoOf(rows, parse).Ok?
    ensures InfoOf(rows, parse).value.Keys == (Names(rows) - CatalogueKeys) + RecordKeys
  {
    var sorted := SortByTime(rows);
    SortByTimeIsStableSort(rows);
    RunFirstsKeys(sorted);
    RenamedSpec(RunFirsts(sorted), parse);
    forall n | n in Names(rows) ensures n in Names(sorted) {
      var i :| 0 <= i < |rows| && rows[i].paramName == n;
      assert rows[i] in multiset(sorted);
    }
    forall n | n in Names(sorted) ensures n in Names(rows) {
      var i :| 0 <= i < |sorted| && sorted[i].paramName == n;
      assert sorted[i] in multiset(rows);
    }
  }

  /** A record key whose catalogue parameter has no row defaults to 0.0. */
  lemma GetInfoDefaults(rows: seq<Row>, parse: string -> Option<real>)
    requires InfoOf(rows, parse).Ok?
    ensures "crossSection" !in Names(rows) ==> InfoOf(rows, parse).value["cross section"] == Float(0.0)
    ensures "genFiltEff" !in Names(rows) ==> InfoOf(rows, parse).value["filter efficiency"] == Float(0.0)
    ensures "kFactor" !in Names(rows) ==> InfoOf(rows, parse).value["k-factor"] == Float(0.0)
  {
    var sorted := SortByTime(rows);
    SortByTimeIsStableSort(rows);
    RunFirstsKeys(sorted);
    RenamedSpec(RunFirsts(sorted), parse);
    forall n | n in Names(sorted) ensures n in Names(rows) {
      var i :| 0 <= i < |sorted| && sorted[i].paramName == n;
      assert sorted[i] in multiset(rows);
    }
  }

  /** Any other parameter keeps, as a string, the first value of its last
      run in the time-sorted rows. */
  lemma GetInfoOtherValue(rows: seq<Row>, parse: string -> Option<real>, j: nat)
    requires InfoOf(rows, parse).Ok?
    requires RunStart(SortByTime(rows), j)
    requires forall k :: j < k < |SortByTime(rows)| && RunStart(SortByTime(rows), k) ==>
      SortByTime(rows)[k].paramName != SortByTime(rows)[j].paramName
    requires SortByTime(rows)[j].paramName !in CatalogueKeys + RecordKeys
    ensures SortByTime(rows)[j].paramName in InfoOf(rows, parse).value
    ensures InfoOf(rows, parse).value[SortByTime(rows)[j].paramName] == Str(SortByTime(rows)[j].paramValue)
  {
    RunFirstsValue(SortByTime(rows), j);
    RenamedSpec(RunFirsts(SortByTime(rows)), parse);
  }

  /** A catalogue parameter that has rows gives its record key the float of
      the first value of its last run in the time-sorted rows. */
  lemma GetInfoRenamedValue(rows: seq<Row>, parse: string -> Option<real>, j: nat)
    requires InfoOf(rows, parse).Ok?
    requires RunStart(SortByTime(rows), j)
    requires forall k :: j < k < |SortByTime(rows)| && RunStart(SortByTime(rows), k) ==>
      SortByTime(rows)[k].paramName != SortByTime(rows)[j].paramName
    requires SortByTime(rows)[j].paramName in CatalogueKeys
    ensures var n, v, info := SortByTime(rows)[j].paramName, SortByTime(rows)[j].paramValue, InfoOf(rows, parse).value;
      && parse(v).Some?
      && (n == "crossSection" ==> info["cross section"] == Float(parse(v).value))
      && (n == "genFiltEff" ==> info["filter efficiency"] == Float(parse(v).value))
      && (n == "kFactor" ==> info["k-factor"] == Float(parse(v).value))
  {
    RunFirstsValue(SortByTime(rows), j);
    RenamedSpec(RunFirsts(SortByTime(rows)), parse);
  }
}
