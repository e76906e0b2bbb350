/** get_sample_info: the weight record of one sample. The DID and generator
    tag come from the sample's name, the EVNT dataset from a catalogue
    search, the event count from the per-file counter and the physics
    values from get_info. */
module SampleInfo {
  import opened Common
  import opened Identifiers
  import opened Cutflow
  import opened PhysicsParams

  /** A sample as the ROOT sample handler describes it: its name and the
      files of `makeFileList()` (the first of which is `fileName(0)`). */
  datatype Sample = Sample(name: string, files: seq<string>, listingError: Option<PyError>)

  /** `sample.makeFileList()`: the sample's files, or the exception the
      sample handler raises while listing them. */
  function FileList(sample: Sample): Result<seq<string>>
  {
    if sample.listingError.Some? then Err(sample.listingError.value) else Ok(sample.files)
  }

  /** One dataset the catalogue search lists: its fields by name (`ldn` is
      the dataset's name). */
  type Dataset = map<string, string>

  /** The foreign collaborators, as oracles. */
  datatype Collaborators = Collaborators(
    /** `api.list_datasets` for a pattern: the datasets that match, or the
        exception the catalogue client raises */
    listDatasets: string -> Result<seq<Dataset>>,
    /** the outcome of attempt `k` of the counter on file `fname` */
    counter: (string, nat) -> Attempt,
    /** the catalogue rows of `GetPhysicsParamsForDataset` for a dataset,
        or the exception the catalogue client raises */
    physicsParams: string -> Result<seq<Row>>,
    /** how `float()` reads a string */
    parse: string -> Option<real>)

  /** The record every sample starts from. */
  function DefaultWeight(): Record
  {
    map["num events" := Float(0.0), "errors" := List([]), "cross section" := Float(-1.0),
        "filter efficiency" := Float(-1.0), "k-factor" := Float(-1.0), "rel uncert" := Float(-1.0)]
  }

  /** The catalogue pattern of the EVNT dataset of a DID and generator tag
      (`%` is the catalogue's wildcard). */
  function EvntPattern(did: string, genTag: string): string
  {
    "mc15_13TeV" + "." + did + "." + "%.evgen.EVNT." + genTag
  }

  /** The sample name the identifiers are read from: the basename of the
      first file in a flat layout, the sample's own name otherwise. */
  function SampleName(sample: Sample, flatLayout: bool): Result<string>
  {
    if !flatLayout then Ok(sample.name)
    else if sample.files == [] then Err(ForeignError)
    else Ok(Basename(sample.files[0]))
  }

  /** The attempts of the counter on one file. */
  function CounterOf(env: Collaborators, fname: string): nat -> Attempt
  {
    (k: nat) => env.counter(fname, k)
  }

  /** What get_cutflow returns for each file, in file order. */
  function Counts(files: seq<string>, env: Collaborators): (counts: seq<Value>)
    ensures |counts| == |files|
  {
    seq(|files|, i requires 0 <= i < |files| => GetCutflow(files[i], CounterOf(env, files[i]), 0))
  }

  /** The sum of the results that `float()` converts. */
  function NumericSum(counts: seq<Value>, parse: string -> Option<real>): real
  {
    if counts == [] then 0.0
    else
      var f := ToFloat(counts[|counts| - 1], parse);
      NumericSum(counts[..|counts| - 1], parse) + (if f.Ok? then f.value else 0.0)
  }

  /** The results that `float()` rejects, in order. */
  function NonNumeric(counts: seq<Value>, parse: string -> Option<real>): seq<Value>
  {
    if counts == [] then []
    else
      var last := counts[|counts| - 1];
      NonNumeric(counts[..|counts| - 1], parse) + (if ToFloat(last, parse).Err? then [last] else [])
  }

  /** The record after the file loop over results `counts`. */
  function Tallied(counts: seq<Value>, parse: string -> Option<real>): Record
  {
    DefaultWeight()["num events" := Float(NumericSum(counts, parse))]["errors" := List(NonNumeric(counts, parse))]
  }

  /** What get_sample_info returns, or the exception that escapes it. */
  function SampleRecord(sample: Sample, flatLayout: bool, env: Collaborators): Result<(string, Record)>
  {
    var name :- SampleName(sample, flatLayout);
    var did :- GetDid(name);
    var genTag :- GetGeneratorTag(name);
    var found :- env.listDatasets(EvntPattern(did, genTag));
    RecordOf(did, found, FileList(sample), env)
  }

  /** What get_sample_info returns once the catalogue search has listed
      `found`: the defaults unless exactly one dataset is found, and
      otherwise the record the `try` block fills from that dataset. */
  function RecordOf(did: string, found: seq<Dataset>, listing: Result<seq<string>>, env: Collaborators): Result<(string, Record)>
  {
    if |found| != 1 then Ok((did, DefaultWeight()))
    else if "ldn" !in found[0] then Err(KeyError)
    else Ok((did, Filled(listing, found[0]["ldn"], env)))
  }

  /** The record the `try` block returns for the EVNT dataset `evnt`, given
      the outcome of `makeFileList()`: the defaults if listing the files
      raises; otherwise the tally of the files, merged with get_info's
      parameters unless get_info raises. */
  function Filled(listing: Result<seq<string>>, evnt: string, env: Collaborators): Record
  {
    match listing
    case Err(_) => DefaultWeight()
    case Ok(files) =>
      var weight := Tallied(Counts(files, env), env.parse);
      match QueryInfo(env.physicsParams(evnt), env.parse)
      case Ok(info) => weight + info
      case Err(_) => weight
  }

  /** get_sample_info. The `try` around the file loop and get_info turns an
      exception from get_info into the partial record; the exceptions of the
      identifiers and of the catalogue search before it escape. */
  method GetSampleInfo(sample: Sample, flatLayout: bool, env: Collaborators)
    returns (r: Result<(string, Record)>)
    ensures r == SampleRecord(sample, flatLayout, env)
  {
    var weight := DefaultWeight();
    var sampleName :- SampleName(sample, flatLayout);
    var did :- GetDid(sampleName);
    var genTag :- GetGeneratorTag(sampleName);
    var res :- env.listDatasets(EvntPattern(did, genTag));
    if |res| != 1 {
      return Ok((did, weight));
    }
    if "ldn" !in res[0] {
      return Err(KeyError);
    }
    var evntFileName := res[0]["ldn"];
    var listing := FileList(sample);
    if listing.Err? {
      return Ok((did, weight));
    }
    weight := TallyFiles(listing.value, env);
    var info := GetInfo(env.physicsParams(evntFileName), env.parse);
    if info.Err? {
      return Ok((did, weight));
    }
    weight := weight + info.value;
    return Ok((did, weight));
  }

  /** The file loop inside the `try`: the record starts from the defaults,
      each result that `float()` converts is added to `num events`, and each
      other one is appended to `errors`. */
  method TallyFiles(files: seq<string>, env: Collaborators) returns (weight: Record)
    ensures weight == Tallied(Counts(files, env), env.parse)
  {
    weight := DefaultWeight();
    ghost var counts := Counts(files, env);
    var i := 0;
    while i < |files|
      invariant 0 <= i <= |files|
      invariant weight == Tallied(counts[..i], env.parse)
    {
      var count := GetCutflow(files[i], CounterOf(env, files[i]), 0);
      assert count == counts[i];
      TalliedStep(counts[..i + 1], env.parse);
      assert counts[..i + 1][..i] == counts[..i];
      var f := ToFloat(count, env.parse);
      if f.Ok? {
        weight := weight["num events" := Float(weight["num events"].x + f.value)];
      } else {
        weight := weight["errors" := List(weight["errors"].items + [count])];
      }
      i := i + 1;
    }
    assert counts[..i] == counts;
  }

  /** One more result: a number is added to `num events`, anything else
      is appended to `errors`. */
  lemma TalliedStep(counts: seq<Value>, parse: string -> Option<real>)
    requires counts != []
    ensures var before, last := Tallied(counts[..|counts| - 1], parse), counts[|counts| - 1];
      && "num events" in before && before["num events"].Float?
      && "errors" in before && before["errors"].List?
      && Tallied(counts, parse) ==
        if ToFloat(last, parse).Ok? then before["num events" := Float(before["num events"].x + ToFloat(last, parse).value)]
        else before["errors" := List(before["errors"].items + [last])]
  {
    var front, last := counts[..|counts| - 1], counts[|counts| - 1];
    var f := ToFloat(last, parse);
    if f.Ok? {
      assert NumericSum(counts, parse) == NumericSum(front, parse) + f.value;
      assert NonNumeric(counts, parse) == NonNumeric(front, parse);
    } else {
      assert NumericSum(counts, parse) == NumericSum(front, parse);
      assert NonNumeric(counts, parse) == NonNumeric(front, parse) + [last];
    }
  }

  // ---------------------------------------------------------------------
  // Properties

  /** The catalogue search for the EVNT dataset of a sample name. */
  function SearchOf(name: string, env: Collaborators): Result<seq<Dataset>>
    requires GetDid(name).Ok? && GetGeneratorTag(name).Ok?
  {
    env.listDatasets(EvntPattern(GetDid(name).value, GetGeneratorTag(name).value))
  }

  /** What makes get_sample_info raise, all of it before the `try`: a
      flat-layout sample without files; a name without a DID or generator
      tag (the extractor's ValueError); the catalogue search raising (its
      own exception); or its one dataset lacking `ldn` (KeyError). */
  lemma GetSampleInfoRaises(sample: Sample, flatLayout: bool, env: Collaborators)
    ensures var name := SampleName(sample, flatLayout);
      SampleRecord(sample, flatLayout, env).Err? <==>
        || name.Err?
        || GetDid(name.value).Err?
        || GetGeneratorTag(name.value).Err?
        || SearchOf(name.value, env).Err?
        || (|SearchOf(name.value, env).value| == 1 && "ldn" !in SearchOf(name.value, env).value[0])
    ensures var name := SampleName(sample, flatLayout);
      name.Ok? && (GetDid(name.value).Err? || GetGeneratorTag(name.value).Err?) ==>
        SampleRecord(sample, flatLayout, env).error.ValueError?
    ensures var name := SampleName(sample, flatLayout);
      name.Ok? && GetDid(name.value).Ok? && GetGeneratorTag(name.value).Ok? && SearchOf(name.value, env).Err? ==>
        SampleRecord(sample, flatLayout, env) == Err(SearchOf(name.value, env).error)
    ensures var name := SampleName(sample, flatLayout);
      name.Ok? && GetDid(name.value).Ok? && GetGeneratorTag(name.value).Ok? && SearchOf(name.value, env).Ok?
      && |SearchOf(name.value, env).value| == 1 && "ldn" !in SearchOf(name.value, env).value[0] ==>
        SampleRecord(sample, flatLayout, env) == Err(KeyError)
    ensures SampleRecord(sample, flatLayout, env).Ok? ==>
      SampleRecord(sample, flatLayout, env).value.0 == GetDid(SampleName(sample, flatLayout).value).value
  {
    var name := SampleName(sample, flatLayout);
    if name.Ok? && GetDid(name.value).Err? {
      GetDidFails(name.value);
    } else if name.Ok? && GetGeneratorTag(name.value).Err? {
      GetGeneratorTagFails(name.value);
    }
  }

  /** Without exactly one EVNT dataset the record keeps all its defaults. */
  lemma GetSampleInfoNoUniqueEvnt(did: string, found: seq<Dataset>, listing: Result<seq<string>>, env: Collaborators)
    requires |found| != 1
    ensures RecordOf(did, found, listing, env).Ok?
    ensures var w := RecordOf(did, found, listing, env).value.1;
      && w.Keys == {"num events", "errors", "cross section", "filter efficiency", "k-factor", "rel uncert"}
      && w["num events"] == Float(0.0) && w["errors"] == List([])
      && w["cross section"] == w["filter efficiency"] == w["k-factor"] == w["rel uncert"] == Float(-1.0)
  {
  }

  /** With one EVNT dataset, `num events` is the sum of the per-file results
      that convert to numbers and `errors` lists the others in file order,
      unless the catalogue itself has parameters of those names. */
  lemma GetSampleInfoTally(files: seq<string>, evnt: string, env: Collaborators)
    requires env.physicsParams(evnt).Ok? ==>
      "num events" !in Names(env.physicsParams(evnt).value) && "errors" !in Names(env.physicsParams(evnt).value)
    ensures var w, counts := Filled(Ok(files), evnt, env), Counts(files, env);
      && "num events" in w && w["num events"] == Float(NumericSum(counts, env.parse))
      && "errors" in w && w["errors"] == List(NonNumeric(counts, env.parse))
  {
    var t := Tallied(Counts(files, env), env.parse);
    assert "num events" in t && "errors" in t;
    if env.physicsParams(evnt).Ok? {
      var rows := env.physicsParams(evnt).value;
      var info := InfoOf(rows, env.parse);
      if info.Ok? {
        GetInfoKeys(rows, env.parse);
        assert "num events" !in info.value && "errors" !in info.value;
      }
    }
  }

  /** `rel uncert` stays -1.0 unless the catalogue supplies it. */
  lemma GetSampleInfoRelUncert(did: string, found: seq<Dataset>, listing: Result<seq<string>>, env: Collaborators)
    requires RecordOf(did, found, listing, env).Ok?
    requires |found| == 1 && env.physicsParams(found[0]["ldn"]).Ok? ==>
      "rel uncert" !in Names(env.physicsParams(found[0]["ldn"]).value)
    ensures var w := RecordOf(did, found, listing, env).value.1;
      "rel uncert" in w && w["rel uncert"] == Float(-1.0)
  {
    if |found| == 1 && listing.Ok? && env.physicsParams(found[0]["ldn"]).Ok? {
      var rows := env.physicsParams(found[0]["ldn"]).value;
      var info := InfoOf(rows, env.parse);
      if info.Ok? {
        GetInfoKeys(rows, env.parse);
        assert "rel uncert" !in info.value;
      }
    }
  }

  /** An exception from get_info inside the `try` (the catalogue query
      failing, or a value that does not convert) gives the partial record:
      the counts, and no catalogue values. */
  lemma GetSampleInfoInfoFails(files: seq<string>, evnt: string, env: Collaborators)
    requires QueryInfo(env.physicsParams(evnt), env.parse).Err?
    ensures var w := Filled(Ok(files), evnt, env);
      && w == Tallied(Counts(files, env), env.parse)
      && w["cross section"] == w["filter efficiency"] == w["k-factor"] == w["rel uncert"] == Float(-1.0)
  {
  }

  /** An exception from `makeFileList()` inside the `try` comes before any
      change to the record: the defaults come back, with no events and no
      errors. */
  lemma GetSampleInfoListingFails(listing: Result<seq<string>>, evnt: string, env: Collaborators)
    requires listing.Err?
    ensures var w := Filled(listing, evnt, env);
      && w == DefaultWeight()
      && w["num events"] == Float(0.0) && w["errors"] == List([])
  {
  }

  lemma {:induction false} NonNumericOfFailures(files: seq<string>, env: Collaborators)
    requires forall f, k: nat :: f in files && k <= MaxErrors ==> env.counter(f, k).Raised?
    requires forall f :: f in files ==> env.parse(f).None?
    ensures NumericSum(Counts(files, env), env.parse) == 0.0
    ensures NonNumeric(Counts(files, env), env.parse) == seq(|files|, i requires 0 <= i < |files| => Str(files[i]))
  {
    if files != [] {
      var front := files[..|files| - 1];
      var last := files[|files| - 1];
      NonNumericOfFailures(front, env);
      GetCutflowGivesUp(last, CounterOf(env, last), 0);
      assert Counts(files, env)[..|files| - 1] == Counts(front, env);
    }
  }

  /** A sample whose every file fails all four attempts gets no events and
      one error per file, the file name, as long as the names are not
      numbers themselves. */
  lemma GetSampleInfoAllFilesFail(files: seq<string>, evnt: string, env: Collaborators)
    requires env.physicsParams(evnt).Ok? ==>
      "num events" !in Names(env.physicsParams(evnt).value) && "errors" !in Names(env.physicsParams(evnt).value)
    requires forall f, k: nat :: f in files && k <= MaxErrors ==> env.counter(f, k).Raised?
    requires forall f :: f in files ==> env.parse(f).None?
    ensures var w := Filled(Ok(files), evnt, env);
      && "num events" in w && w["num events"] == Float(0.0)
      && "errors" in w && w["errors"] == List(seq(|files|, i requires 0 <= i < |files| => Str(files[i])))
  {
    GetSampleInfoTally(files, evnt, env);
    NonNumericOfFailures(files, env);
  }

  /** Where the pieces of the EVNT pattern sit. */
  lemma EvntPatternLayout(did: string, genTag: string)
    ensures var s, n := EvntPattern(did, genTag), |did|;
      && |s| == 11 + n + 14 + |genTag|
      && s[..11] == "mc15_13TeV."
      && s[11 .. 11 + n] == did
      && s[11 + n .. 11 + n + 14] == ".%.evgen.EVNT."
      && s[11 + n + 14 ..] == genTag
  {
  }

  /** get_did finds the DID in the EVNT pattern, unless the DID is `00` and
      six more digits (which get_did would read without the `00`). */
  lemma EvntPatternDid(did: string, genTag: string)
    requires 6 <= |did| <= 8 && forall k :: 0 <= k < |did| ==> IsDigit(did[k])
    requires !(|did| == 8 && did[0] == '0' && did[1] == '0')
    ensures GetDid(EvntPattern(did, genTag)) == Ok(did)
  {
    var s := EvntPattern(did, genTag);
    var n := |did|;
    EvntPatternLayout(did, genTag);
    var head := "mc15_13TeV.";
    assert forall k :: 0 <= k < 11 ==> s[k] == head[k];
    assert forall k :: 11 <= k < 11 + n ==> s[k] == did[k - 11];
    assert s[11 + n] == '.';
    assert SixDigitsAt(s, 11);
    forall i | 0 <= i < 11 ensures !SixDigitsAt(s, i) {
      if i <= 4 { assert s[4] == '_'; }
      else if i <= 7 { assert s[7] == 'T'; }
      else { assert s[10] == '.'; }
    }
    if did[0] == '0' && did[1] == '0' {
      assert 13 <= 11 + n < 19 && !IsDigit(s[11 + n]);
      assert !SixDigitsAt(s, 13);
    }
    assert DidStart(s, 11) == 11;
    GetDidLeftmost(s, 11);
    var d := GetDid(s).value;
    DigitMatchLength(s, 11, n, d);
  }

  /** A digit match that starts at the head of a run of n <= 8 digits, and
      can stop only at eight digits or at a non-digit, takes the whole run. */
  lemma DigitMatchLength(s: string, j: nat, n: nat, d: string)
    requires n <= 8 && j + n < |s| && !IsDigit(s[j + n])
    requires forall k :: j <= k < j + n ==> IsDigit(s[k])
    requires j + |d| <= |s| && d == s[j .. j + |d|]
    requires forall k :: 0 <= k < |d| ==> IsDigit(d[k])
    requires |d| == 8 || j + |d| == |s| || !IsDigit(s[j + |d|])
    ensures |d| == n
  {
  }

  /** get_generator_tag finds the tag at the end of the EVNT pattern. */
  lemma EvntPatternTag(did: string, genTag: string)
    requires forall k :: 0 <= k < |did| ==> IsDigit(did[k])
    requires |genTag| == 5 && genTag[0] == 'e' && forall k :: 1 <= k < 5 ==> IsDigit(genTag[k])
    ensures GetGeneratorTag(EvntPattern(did, genTag)) == Ok(genTag)
  {
    var s := EvntPattern(did, genTag);
    var n := |did|;
    EvntPatternLayout(did, genTag);
    var head, mid := "mc15_13TeV.", ".%.evgen.EVNT.";
    var p := 11 + n + 14;
    assert TagAt(s, p);
    forall i | 0 <= i < p ensures !TagAt(s, i) {
      if i < 11 {
        if i == 8 {
          assert s[9] == head[9];
        } else {
          assert s[i] == head[i];
        }
      } else if i < 11 + n {
        assert s[i] == did[i - 11];
      } else {
        var o := i - 11 - n;
        assert s[i] == mid[o] && s[i + 1] == (mid + genTag)[o + 1];
      }
    }
    GetGeneratorTagLeftmost(s, p);
    assert s[p .. p + 5] == genTag;
  }
}
