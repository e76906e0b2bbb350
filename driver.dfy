/** The driver of weights.py: the log level chosen by `-v`, and the loop
    that merges the per-sample results into the weights table as the worker
    pool hands them back. */
module Driver {
  import opened Common

  /** `logging.NOTSET` */
  const NotSet: int := 0

  /** The logger level for `-v` given `verbose` times. */
  function LogLevel(verbose: nat): (level: int)
    ensures 1 <= level <= 20
    ensures verbose == 0 ==> level == 20
    ensures level == NotSet + 1 <==> verbose >= 4
  {
    if verbose < 4 then 20 - verbose * 5 else NotSet + 1
  }

  /** Each further `-v` lowers the level (shows more) until the fourth. */
  lemma LogLevelMonotone(a: nat, b: nat)
    requires a <= b
    ensures LogLevel(b) <= LogLevel(a)
    ensures a < b && a < 4 ==> LogLevel(b) < LogLevel(a)
  {
  }

  /** What the result loop receives from the pool, in completion order: a
      `(did, weight)` pair, or the exception a worker raised, which the
      pool raises again at the loop. */
  type Completion = Result<(string, Record)>

  /** How many completions arrive before the first exception. */
  function Delivered(results: seq<Completion>): (n: nat)
    ensures n <= |results|
    ensures forall i :: 0 <= i < n ==> results[i].Ok?
    ensures n < |results| ==> results[n].Err?
  {
    if results == [] || results[0].Err? then 0 else 1 + Delivered(results[1..])
  }

  /** The pairs of a run of completions that all returned. */
  function Pairs(results: seq<Completion>): (pairs: seq<(string, Record)>)
    requires forall i :: 0 <= i < |results| ==> results[i].Ok?
    ensures |pairs| == |results|
    ensures forall i :: 0 <= i < |results| ==> pairs[i] == results[i].value
  {
    seq(|results|, i requires 0 <= i < |results| && results[i].Ok? => results[i].value)
  }

  lemma PairsSnoc(results: seq<Completion>, i: nat)
    requires i < |results| && forall j :: 0 <= j <= i ==> results[j].Ok?
    ensures Pairs(results[..i + 1]) == Pairs(results[..i]) + [results[i].value]
  {
    assert results[..i + 1][..i] == results[..i];
  }

  /** The result loop: `weights.update(dict((res,)))` for each result until
      one raises. Afterwards the table is the upsert of the delivered
      results (see DeliveredTable), and `raised` is the exception that
      ended the loop, if any. */
  method CollectResults(results: seq<Completion>) returns (weights: map<string, Record>, raised: Option<PyError>)
    ensures var n := Delivered(results);
      && weights == LastWins(Pairs(results[..n]))
      && raised == if n < |results| then Some(results[n].error) else None
  {
    ghost var n := Delivered(results);
    weights := map[];
    var i := 0;
    while i < |results|
      invariant 0 <= i <= n
      invariant weights == LastWins(Pairs(results[..i]))
    {
      if results[i].Err? {
        raised := Some(results[i].error);
        return;
      }
      var (did, w) := results[i].value;
      PairsSnoc(results, i);
      weights := weights[did := w];
      i := i + 1;
    }
    raised := None;
  }

  /** The table built from the delivered results, described key by key. */
  lemma DeliveredTable(results: seq<Completion>)
    ensures var n := Delivered(results);
      var pairs := Pairs(results[..n]);
      && LastWins(pairs).Keys == (set i | 0 <= i < n :: results[i].value.0)
      && (forall i :: 0 <= i < n && (forall j :: i < j < n ==> results[j].value.0 != results[i].value.0) ==>
            LastWins(pairs)[results[i].value.0] == results[i].value.1)
  {
    var n := Delivered(results);
    var pairs := Pairs(results[..n]);
    assert forall i :: 0 <= i < n ==> pairs[i] == results[i].value;
    LastWinsKeys(pairs);
    assert (set i | 0 <= i < |pairs| :: pairs[i].0) == (set i | 0 <= i < n :: results[i].value.0);
    forall i | 0 <= i < n && (forall j :: i < j < n ==> results[j].value.0 != results[i].value.0)
      ensures LastWins(pairs)[results[i].value.0] == results[i].value.1
    {
      assert forall j :: i < j < |pairs| ==> pairs[j].0 != pairs[i].0;
      LastWinsValue(pairs, i);
    }
  }

  /** Whatever order the pool completes in, a run without exceptions ends
      with the same set of DIDs: one entry per DID returned. */
  lemma CollectResultsAnyOrder(results: seq<Completion>, reordered: seq<Completion>)
    requires multiset(results) == multiset(reordered)
    requires forall i :: 0 <= i < |results| ==> results[i].Ok?
    ensures Delivered(results) == |results| && Delivered(reordered) == |reordered|
    ensures LastWins(Pairs(results)).Keys == LastWins(Pairs(reordered)).Keys
  {
    forall j | 0 <= j < |reordered| ensures reordered[j].Ok? {
      assert reordered[j] in multiset(results);
    }
    LastWinsKeys(Pairs(results));
    LastWinsKeys(Pairs(reordered));
    forall i | 0 <= i < |results|
      ensures results[i].value.0 in LastWins(Pairs(reordered)).Keys
    {
      assert results[i] in multiset(reordered);
      var j :| 0 <= j < |reordered| && reordered[j] == results[i];
      assert Pairs(reordered)[j] == results[i].value;
    }
    forall j | 0 <= j < |reordered|
      ensures reordered[j].value.0 in LastWins(Pairs(results)).Keys
    {
      assert reordered[j] in multiset(results);
      var i :| 0 <= i < |results| && results[i] == reordered[j];
      assert Pairs(results)[i] == reordered[j].value;
    }
    assert results[..|results|] == results;
    assert reordered[..|reordered|] == reordered;
  }
}
