/** write_weights.py: read event counts from a `:`-separated table into
    `cutflows`, then put them into an existing weights mapping and name the
    output after the input. */
module WriteWeights {
  import opened Common

  // ---------------------------------------------------------------------
  // The rows of the table

  /** The fields of `s` between occurrences of `sep`. */
  function Split(s: string, sep: char): (fields: seq<string>)
    ensures |fields| >= 1
    ensures forall i :: 0 <= i < |fields| ==> sep !in fields[i]
  {
    if s == [] then [[]]
    else
      var front := Split(s[..|s| - 1], sep);
      var c := s[|s| - 1];
      if c == sep then front + [[]]
      else front[..|front| - 1] + [front[|front| - 1] + [c]]
  }

  /** The fields put back together with `sep` between them. */
  function Join(fields: seq<string>, sep: char): string
    requires |fields| >= 1
  {
    if |fields| == 1 then fields[0]
    else Join(fields[..|fields| - 1], sep) + [sep] + fields[|fields| - 1]
  }

  /** Splitting loses nothing: joining the fields gives the line back. */
  lemma {:induction false} JoinSplit(s: string, sep: char)
    ensures Join(Split(s, sep), sep) == s
  {
    if s != [] {
      var front := s[..|s| - 1];
      var fields := Split(front, sep);
      JoinSplit(front, sep);
      var c := s[|s| - 1];
      if c == sep {
        var out := fields + [[]];
        assert out[..|out| - 1] == fields;
      } else {
        var out := fields[..|fields| - 1] + [fields[|fields| - 1] + [c]];
        assert out[..|out| - 1] == fields[..|fields| - 1];
        if |fields| > 1 {
          assert fields == fields[..|fields| - 1] + [fields[|fields| - 1]];
        }
      }
      assert s == front + [c];
    }
  }

  lemma {:induction false} SplitAfterSeparator(prefix: string, last: string, sep: char)
    requires sep !in last
    ensures Split(prefix + [sep] + last, sep) == Split(prefix, sep) + [last]
  {
    if last == [] {
      assert prefix + [sep] + last == prefix + [sep];
      assert (prefix + [sep])[..|prefix|] == prefix;
    } else {
      var shorter := last[..|last| - 1];
      SplitAfterSeparator(prefix, shorter, sep);
      var s := prefix + [sep] + last;
      assert s[..|s| - 1] == prefix + [sep] + shorter;
      assert shorter + [last[|last| - 1]] == last;
    }
  }

  /** Fields without the separator are split back out of their join. */
  lemma {:induction false} SplitJoin(fields: seq<string>, sep: char)
    requires |fields| >= 1
    requires forall i :: 0 <= i < |fields| ==> sep !in fields[i]
    ensures Split(Join(fields, sep), sep) == fields
  {
    if |fields| == 1 {
      SplitWithoutSeparator(fields[0], sep);
    } else {
      var front := fields[..|fields| - 1];
      SplitJoin(front, sep);
      SplitAfterSeparator(Join(front, sep), fields[|fields| - 1], sep);
    }
  }

  lemma {:induction false} SplitWithoutSeparator(s: string, sep: char)
    requires sep !in s
    ensures Split(s, sep) == [s]
  {
    if s != [] {
      SplitWithoutSeparator(s[..|s| - 1], sep);
      assert s[..|s| - 1] + [s[|s| - 1]] == s;
    }
  }

  /** A line of `nevents.list` as `csv.reader(f, delimiter=":")` gives it:
      an empty line has no fields at all. */
  function CsvRow(line: string): seq<string>
  {
    if line == [] then [] else Split(line, ':')
  }

  /** A row is too short for `cc[1]` exactly when its line is empty or has
      no `:`. */
  lemma CsvRowShort(line: string)
    ensures |CsvRow(line)| < 2 <==> line == [] || ':' !in line
  {
    if line != [] {
      if ':' !in line {
        SplitWithoutSeparator(line, ':');
      } else if |Split(line, ':')| == 1 {
        JoinSplit(line, ':');
      }
    }
  }

  // ---------------------------------------------------------------------
  // cutflows

  function KeyValues(rows: seq<seq<string>>): (pairs: seq<(string, string)>)
    requires forall i :: 0 <= i < |rows| ==> |rows[i]| >= 2
    ensures |pairs| == |rows|
    ensures forall i :: 0 <= i < |rows| ==> pairs[i] == (rows[i][0], rows[i][1])
  {
    seq(|rows|, i requires 0 <= i < |rows| && |rows[i]| >= 2 => (rows[i][0], rows[i][1]))
  }

  /** `for cc in c: cutflows[cc[0]] = cc[1]`. A row of fewer than two
      fields raises IndexError; otherwise each first field maps to the
      second field of its last row, and fields after the second are
      ignored. */
  method BuildCutflows(rows: seq<seq<string>>) returns (r: Result<map<string, string>>)
    ensures r.Err? <==> exists i :: 0 <= i < |rows| && |rows[i]| < 2
    ensures r.Err? ==> r.error == IndexError
    ensures r.Ok? ==> r.value == LastWins(KeyValues(rows))
    ensures r.Ok? ==> r.value.Keys == (set i | 0 <= i < |rows| :: rows[i][0])
    ensures r.Ok? ==> forall i :: 0 <= i < |rows| && (forall j :: i < j < |rows| ==> rows[j][0] != rows[i][0]) ==>
      r.value[rows[i][0]] == rows[i][1]
  {
    var cutflows: map<string, string> := map[];
    var i := 0;
    while i < |rows|
      invariant 0 <= i <= |rows|
      invariant forall j :: 0 <= j < i ==> |rows[j]| >= 2
      invariant cutflows == LastWins(KeyValues(rows[..i]))
    {
      if |rows[i]| < 2 {
        return Err(IndexError);
      }
      assert KeyValues(rows[..i + 1]) == KeyValues(rows[..i]) + [(rows[i][0], rows[i][1])];
      cutflows := cutflows[rows[i][0] := rows[i][1]];
      i := i + 1;
    }
    assert rows[..i] == rows;
    var pairs := KeyValues(rows);
    LastWinsKeys(pairs);
    forall i | 0 <= i < |rows| && (forall j :: i < j < |rows| ==> rows[j][0] != rows[i][0])
      ensures cutflows[rows[i][0]] == rows[i][1]
    {
      LastWinsValue(pairs, i);
    }
    return Ok(cutflows);
  }

  // ---------------------------------------------------------------------
  // write_new_weights

  /** The inner mapping of one weights entry, in the order `keys()` lists
      it. */
  type Tags = seq<(string, Record)>

  /** The entry of key `k` after the loop body: the record of its first tag
      gets the count under `num events`, or 0 under the misspelled key
      `num events]` when the table has no row for `k`. */
  function Patched(k: string, tags: Tags, cutflows: map<string, string>): Tags
    requires tags != []
  {
    var (tag, rec) := tags[0];
    var patched := if k in cutflows then rec["num events" := Str(cutflows[k])] else rec["num events]" := Int(0)];
    [(tag, patched)] + tags[1..]
  }

  /** Only the first tag's record changes, and in it only one field: the
      count, as the table's string, or the misspelled fallback key. */
  lemma PatchedSpec(k: string, tags: Tags, cutflows: map<string, string>)
    requires tags != []
    ensures var out := Patched(k, tags, cutflows);
      var (before, after) := (tags[0].1, out[0].1);
      && |out| == |tags| && out[0].0 == tags[0].0 && out[1..] == tags[1..]
      && (k in cutflows ==> after.Keys == before.Keys + {"num events"} && after["num events"] == Str(cutflows[k]))
      && (k !in cutflows ==> after.Keys == before.Keys + {"num events]"} && after["num events]"] == Int(0))
      && (k !in cutflows && "num events" in before ==> after["num events"] == before["num events"])
      && forall f :: f in before && f != "num events" && f != "num events]" ==> after[f] == before[f]
  {
  }

  /** write_new_weights on the mapping loaded from `filename`. Every entry
      is patched and no entry is added or removed; an entry with no tags
      raises IndexError. */
  method WriteNewWeights(filename: string, weights: map<string, Tags>, cutflows: map<string, string>)
    returns (r: Result<(string, map<string, Tags>)>)
    ensures r.Err? <==> exists k :: k in weights && weights[k] == []
    ensures r.Err? ==> r.error == IndexError
    ensures r.Ok? ==> r.value.0 == "new_" + filename
    ensures r.Ok? ==> r.value.1.Keys == weights.Keys
    ensures r.Ok? ==> forall k :: k in weights ==> r.value.1[k] == Patched(k, weights[k], cutflows)
  {
    var patched := weights;
    var todo := weights.Keys;
    while todo != {}
      invariant todo <= weights.Keys
      invariant patched.Keys == weights.Keys
      invariant forall k :: k in todo ==> patched[k] == weights[k]
      invariant forall k :: k in weights && k !in todo ==> weights[k] != [] && patched[k] == Patched(k, weights[k], cutflows)
      decreases todo
    {
      var k :| k in todo;
      if patched[k] == [] {
        return Err(IndexError);
      }
      var tag := patched[k][0].0;
      var rec := patched[k][0].1;
      if k in cutflows {
        rec := rec["num events" := Str(cutflows[k])];
      } else {
        rec := rec["num events]" := Int(0)];
      }
      patched := patched[k := [(tag, rec)] + patched[k][1..]];
      todo := todo - {k};
    }
    return Ok(("new_" + filename, patched));
  }

  // ---------------------------------------------------------------------
  // The script

  /** `list(csv.reader(f, delimiter=":"))` on the lines of `nevents.list`. */
  function Table(lines: seq<string>): (rows: seq<seq<string>>)
    ensures |rows| == |lines|
    ensures forall i :: 0 <= i < |lines| ==> rows[i] == CsvRow(lines[i])
  {
    seq(|lines|, i requires 0 <= i < |lines| => CsvRow(lines[i]))
  }

  /** The whole script on the lines of `nevents.list` and the mapping in
      `gtt.json`. An empty line or a line without `:` in the table stops it
      with IndexError before any weights are touched; so does an entry
      with no tags. Otherwise every entry is patched with the count of the
      last table line for its key, and the output is `new_gtt.json`. */
  method WriteWeightsScript(lines: seq<string>, weights: map<string, Tags>)
    returns (r: Result<(string, map<string, Tags>)>)
    ensures r.Err? <==>
      (exists i :: 0 <= i < |lines| && (lines[i] == [] || ':' !in lines[i]))
      || (exists k :: k in weights && weights[k] == [])
    ensures r.Err? ==> r.error == IndexError
    ensures r.Ok? ==> forall i :: 0 <= i < |lines| ==> |Table(lines)[i]| >= 2
    ensures r.Ok? ==> r.value.0 == "new_gtt.json" && r.value.1.Keys == weights.Keys
    ensures r.Ok? ==> forall k :: k in weights ==>
      weights[k] != [] && r.value.1[k] == Patched(k, weights[k], LastWins(KeyValues(Table(lines))))
  {
    var c := Table(lines);
    forall i | 0 <= i < |lines| ensures |c[i]| < 2 <==> lines[i] == [] || ':' !in lines[i] {
      CsvRowShort(lines[i]);
    }
    var cutflows :- BuildCutflows(c);
    r := WriteNewWeights("gtt.json", weights, cutflows);
  }
}
