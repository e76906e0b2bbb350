# SampleWeights in Dafny

A model of the logic that `weights.py` and `write_weights.py` own, with proofs about it. The rest of those scripts is glue around ROOT, PyAMI and `multiprocessing`.

- **Identifiers** (`identifiers.dfy`): `get_did` and `get_generator_tag`. Each is written as a leftmost-match search with the backtracking behaviour of its regular expression. The module also has the `os.path.basename` used for flat layouts.
- **Cutflow** (`cutflow.dfy`): `get_cutflow`. Each attempt runs the user's counter on one file. The counter is an oracle: `counter(k)` is the outcome of the attempt made with `numErrors == k`.
- **PhysicsParams** (`physics_params.dfy`): `get_info`. It stable-sorts the catalogue rows by insertion time. A loop then keeps the first value of each run of rows with the same name. Finally three parameters are popped and renamed.
- **SampleInfo** (`sample_info.dfy`): `get_sample_info`. It starts from the default record and builds the EVNT search pattern. It sums the per-file counts and collects the non-numeric ones as errors, then merges in `get_info`. Exceptions are swallowed only inside the `try`. `SampleRecord` is layered as the source is: the identifiers and the search; then `RecordOf` the datasets found; then `Filled`, the record the `try` block returns.
- **Driver** (`driver.dfy`): the verbosity-to-level rule, and the loop that upserts results into the weights table by DID in completion order.
- **InputList** (`input_list.dfy`): the filter that drops comment and blank lines from list files.
- **WriteWeights** (`write_weights.py` → `write_weights.dfy`): reads the `:`-separated table into `cutflows` (the last row for a key wins). It then patches the first tag of every weights entry in place, including the misspelled fallback key `num events]`.
- **Common** (`common.dfy`): Python values (`int`, `float`, `str`, `list`, and any other object, such as `None`, that `float()` rejects with TypeError), the exceptions involved, `float()`, and the "last assignment wins" dictionary fill used by both scripts.

Foreign calls become inputs:
- the catalogue rows that `GetPhysicsParamsForDataset` returns, or the exception the query raises;
- the datasets that `api.list_datasets` lists, or the exception it raises;
- the counter oracle;
- the sample's name and files, and the exception, if any, that `makeFileList()` raises, for the ROOT sample handler;
- the lines of the list files;
- the mapping loaded from YAML.

How `float()` reads a string is library behaviour. It is passed in as a parameter `parse`.

Where the code does something other than its comments or a reader might expect, the model follows the code:
- `get_cutflow` makes four attempts (`numErrors` 0 to 3), although the comment at weights.py:235 says it retries up to 3 times.
- The generator tag is `e` and the first four digits; a longer digit run is not rejected.
- `get_info` does not take the most recent value per parameter. It takes the first (oldest) value of the last consecutive run of that parameter in time order. `GroupByKeepsOlderValue` shows two rows where the older value is kept.
- A sample name without a DID or generator tag does not just drop that sample. `get_did`/`get_generator_tag` raise outside the `try` (weights.py:254-255). `imap_unordered` raises the exception again in the result loop, which ends the loop. `CollectResults` stops at the first exception and reports it.
- Defaults are 0.0 for the three renamed `get_info` keys and -1.0 for the record's physics fields.

## Model

| member | source | states |
|---|---|---|
| `Identifiers.GetDidLeftmost` | weights.py:48-53 | The DID is 6 to 8 ASCII digits. It is a substring of the name, taken from the leftmost run of at least six digits. A leading `00` is skipped exactly when six digits follow it. The match stops only at eight digits or at the end of the run. |
| `Identifiers.GetDidFails` | weights.py:48-53 | `get_did` raises ValueError exactly when the name has no six consecutive digits. |
| `Identifiers.DigitRun` | weights.py:48 | The length of the digit run at a position: every character counted is a digit, and the next one is not. |
| `Identifiers.GetGeneratorTagLeftmost` | weights.py:55-60 | The tag is the substring at the leftmost `e` followed by four digits, five characters long. |
| `Identifiers.GetGeneratorTagFails` | weights.py:55-60 | `get_generator_tag` raises ValueError exactly when no `e` is followed by four digits. |
| `Identifiers.Basename` | weights.py:248-249 | The basename is the suffix of the path after the last `/` and contains no `/`. |
| `Cutflow.GetCutflowFirstSuccess` | weights.py:84-97 | The first of attempts 0-3 that returns gives the result, unconverted. |
| `Cutflow.GetCutflowGivesUp` | weights.py:84-97 | After four failed attempts the file name itself is returned. |
| `Cutflow.GetCutflowAtMostFourAttempts` | weights.py:84-97 | Only the outcomes of attempts 0 to 3 can affect the result. |
| `Cutflow.GetCutflowOutcome` | weights.py:84-97 | The result is the file name or the return value of one of the four attempts. |
| `PhysicsParams.SortByTimeIsStableSort` | weights.py:67 | The rows come out sorted by time and as a permutation. Rows with equal times keep their input order. |
| `PhysicsParams.RunFirstsKeys` | weights.py:68-74 | Every parameter name in the rows gets an entry, and no other name does. |
| `PhysicsParams.RunFirstsValue` | weights.py:70-74 | A name's value is the first value of its last run of consecutive rows. |
| `PhysicsParams.GroupByKeepsOlderValue` | weights.py:67-74 | Two consecutive rows of one parameter keep the older value, not the newest. |
| `PhysicsParams.RenamedSpec` | weights.py:77-79 | The renaming fails exactly when one of the three values is not a float. Otherwise `crossSection`, `genFiltEff` and `kFactor` become `cross section`, `filter efficiency` and `k-factor`, as floats with default 0.0, and every other entry is kept. |
| `PhysicsParams.GetInfo` | weights.py:62-81 | If the catalogue query raises, so does `get_info`. Otherwise the sort, the groupby loop and the three pops compute `InfoOf` of the rows. |
| `PhysicsParams.FirstOfEachRun` | weights.py:68-74 | The groupby loop with `break` leaves `RunFirsts` of the sorted rows: each name mapped to the first value of its last run. |
| `PhysicsParams.GetInfoKeys` | weights.py:67-79 | The keys are all row names except the three catalogue names, plus the three record names. |
| `PhysicsParams.GetInfoDefaults` | weights.py:77-79 | A renamed key with no catalogue row is 0.0. |
| `PhysicsParams.GetInfoOtherValue` | weights.py:67-79 | Any other parameter maps to the string that opens its last run in time order. |
| `PhysicsParams.GetInfoRenamedValue` | weights.py:67-79 | A catalogue parameter with rows (`crossSection`, `genFiltEff`, `kFactor`) gives its record key (`cross section`, `filter efficiency`, `k-factor`) the float of the value that opens its last run in time order. |
| `SampleInfo.GetSampleInfo` | weights.py:238-276 | The method (defaults, identifiers, EVNT search, the `ldn` lookup, file loop, `update`, the `try`) computes `SampleRecord`, which is `RecordOf` of the datasets found. |
| `SampleInfo.TallyFiles` | weights.py:264-270 | The file loop with `+=` and `append` leaves `Tallied` of the per-file results: the defaults, with `num events` and `errors` filled from those results. |
| `SampleInfo.GetSampleInfoRaises` | weights.py:248-260 | It raises exactly when one of these holds, all before the `try`: a flat-layout sample has no file; the name has no DID or tag (ValueError); the catalogue search raises (its own exception); or its one dataset has no `ldn` (KeyError). Otherwise the returned key is the DID. |
| `SampleInfo.GetSampleInfoNoUniqueEvnt` | weights.py:241-259 | Without exactly one EVNT dataset the record is the defaults: the six keys, with 0.0, [], and -1.0 four times. |
| `SampleInfo.GetSampleInfoTally` | weights.py:263-273 | In the record the `try` block fills, `num events` is the sum of the results that convert to float, and `errors` lists the others in file order. This holds unless the catalogue has parameters of those names. |
| `SampleInfo.GetSampleInfoRelUncert` | weights.py:241-273 | `rel uncert` stays -1.0 unless the one EVNT dataset found has a `rel uncert` parameter. |
| `SampleInfo.GetSampleInfoInfoFails` | weights.py:263-276 | If `get_info` raises inside the `try` (the catalogue query fails, or a value does not convert), the partial record comes back: the counts, and -1.0 for the physics fields. |
| `SampleInfo.GetSampleInfoListingFails` | weights.py:263-276 | If `makeFileList()` raises inside the `try`, the record comes back with its defaults: no events and no errors. |
| `SampleInfo.GetSampleInfoAllFilesFail` | weights.py:264-270 | If every file fails all attempts, the `try` block gives `num events` 0.0, and `errors` is the list of file names. |
| `SampleInfo.EvntPatternDid` | weights.py:258 | `get_did` reads the DID back out of the EVNT pattern. The exception is `00` followed by six digits. |
| `SampleInfo.EvntPatternTag` | weights.py:258 | `get_generator_tag` reads the tag back out of the EVNT pattern. |
| `Driver.CollectResults` | weights.py:279-287 | The loop's table is the upsert, in completion order, of the results delivered before the first exception. The exception that ended the loop is reported. |
| `Driver.Delivered` | weights.py:286 | Every result before the first exception returned normally. |
| `Driver.DeliveredTable` | weights.py:286-287 | The upserted table, key by key: its keys are the delivered DIDs, and a later record overwrites an earlier one. |
| `Driver.CollectResultsAnyOrder` | weights.py:282-287 | Two completion orders of the same results without exceptions give the same set of DIDs. |
| `Driver.LogLevel` | weights.py:134-137 | The level is between 1 and 20. It is 20 with no `-v`, and 1 (NOTSET + 1) from four `-v` on. |
| `Driver.LogLevelMonotone` | weights.py:134-137 | More `-v` never raises the level, and each `-v` up to the fourth lowers it. |
| `InputList.ScanInputList` | weights.py:201-205 | The line loop hands on exactly `Kept` of the lines. |
| `InputList.KeptMembers` | weights.py:201-205 | A name is handed on exactly when it is the right-stripped form of a line that neither starts with `#` nor is blank. |
| `InputList.KeptShape` | weights.py:201-205 | Every name handed on is non-empty, does not start with `#` and has no trailing whitespace. |
| `InputList.KeptConcat` | weights.py:201-205 | The filter works line by line, so the names keep file order. |
| `InputList.RStrip` | weights.py:205 | `rstrip` gives the longest prefix that does not end in whitespace. |
| `InputList.LStrip` | weights.py:204 | `lstrip` gives the longest suffix that does not start with whitespace. |
| `InputList.StripEmpty` | weights.py:204 | A line strips to nothing exactly when it is all whitespace. |
| `WriteWeights.JoinSplit` | write_weights.py:6 | Joining the fields of a split line gives the line back. |
| `WriteWeights.SplitJoin` | write_weights.py:6 | Splitting a join of fields without `:` gives the fields back. |
| `WriteWeights.Split` | write_weights.py:6 | A split gives at least one field, and no field contains the separator. |
| `WriteWeights.CsvRowShort` | write_weights.py:6-11 | A row has fewer than two fields exactly when its line is empty or has no `:`. |
| `WriteWeights.BuildCutflows` | write_weights.py:10-11 | IndexError exactly when some row has fewer than two fields. Otherwise the keys are the first fields, each mapped to the second field of its last row. |
| `WriteWeights.PatchedSpec` | write_weights.py:15-20 | Only the first tag's record changes. It gets the raw count string under `num events`, or 0 under `num events]` with `num events` untouched. |
| `WriteWeights.WriteNewWeights` | write_weights.py:13-22 | IndexError exactly when some entry has no tags. Otherwise no key is added or removed, every entry is patched, and the output name is `new_` + the input name. |
| `WriteWeights.WriteWeightsScript` | write_weights.py:4-26 | IndexError exactly when the table has an empty line or a line without `:`, or some entry has no tags. Otherwise the output is `new_gtt.json` with the same keys, and each entry is patched with the second field of the last table line for its key. |
| `Common.LastWinsKeys` | write_weights.py:10-11 | Filling a dictionary pair by pair gives exactly the keys assigned. |
| `Common.LastWinsValue` | write_weights.py:10-11 | A key holds the value of its last assignment. |
| `Common.LastWinsKeysAnyOrder` | weights.py:286-287 | The keys do not depend on the order of the assignments. |

## Left out

- Argument parsing, logging handlers, the SIGINT handler, the `git` version calls and the PyAMI/ROOT setup (weights.py:41-46, 100-150 apart from the level arithmetic at 134-137, 174-232 apart from the list filter). They are I/O and foreign library set-up.
- The output-exists/`--force` check and the `XRDSYS` check (weights.py:157-171). They are filesystem and environment I/O.
- JSON, YAML and CSV reading and writing, including the checkpoint write after each result (weights.py:289-295; write_weights.py:5-8, 14, 22-24). `CsvRow` splits on `:` and does not model CSV quoting.
- `multiprocessing.Pool`. The completion order is an input sequence, and no concurrency is modelled.
- `get_normalization.py`. It is a glob plus ROOT histogram reads summed as floats.
- The unused `samplePattern` (weights.py:237).
- Floating-point rounding. Counts and parameter values are exact reals. `insert_time` is already an integer timestamp, so `strptime`/`mktime` is not modelled.
- `float()` of a string is the parameter `parse`. A file name that `parse` reads as a number counts as events, as in the source.
- An `OverflowError` from `float()` of a huge integer is not modelled. The inner `except` would not catch it.
- Python 2 dictionary iteration order. The inner mapping of a weights entry is an ordered list of tags, and its first element stands for `keys()[0]`. The outer loop takes its keys in an arbitrary order.
- Records that are not dictionaries (a YAML entry that is a list, say) are not modelled.
- The counter is looked up by file name and attempt number, so a file listed twice gets the same outcomes both times.
- `sample.fileName(0)` on a flat-layout sample with no files is a foreign error (`ForeignError`).
