# Network-security data validation, modelled in Dafny

This project models the data-validation stage of the network-security ML
pipeline, together with the `get_requirements` helper of its `setup.py`.

- **`DataValidation`** is the pipeline stage. It holds three things: the
  ingestion artifact (where the train and test CSV files are), its config
  (where the valid copies and the drift report go) and the schema's column
  keys. It provides these operations:
  - a column-count check;
  - a required-columns check, including the list of missing columns;
  - a per-column two-sample Kolmogorov–Smirnov drift test that builds a
    `{column: {p_value, drift_status}}` report and writes it as YAML;
  - `initiate_data_validation`, which reads both tables, runs the four
    structural checks in a fixed order and raises on the first failure,
    then detects drift, writes the valid CSV copies and returns the
    artifact.
- **`get_requirements`** reads `requirements.txt`. It strips each line and
  keeps the lines that are neither empty nor the editable-install marker
  `-e .`. A missing file gives an empty list.

Modules:

- `Wrappers` holds `Option` and `Result`.
- `Seqs` holds sequence predicates: distinctness, element set, subsequence.
- `PyStr` is Python's `str.strip`. It uses the `str.isspace` whitespace set,
  is built from `TrimStart` and `TrimEnd`, and comes with lemmas
  characterising it.
- `Setup` is `get_requirements`.
- `Tables` is a pandas DataFrame modelled as an ordered list of named
  columns. `Lookup` is `df[column]`.
- `DataValidation` is the stage itself: the class with its checks and
  methods, the drift specification `Drift`/`DriftOver`, and the lemmas
  about them.

The model does no I/O:

- Reading a CSV is a parameter `read: string -> Option<Table>`, where `None`
  means `pd.read_csv` raised.
- The KS test is an oracle parameter `ks`. It returns a p-value (a
  probability or NaN) or raises.
- Files written are returned as a list of `FileWrite` records in write
  order. This makes "nothing is written after a failure" a checked
  property.
- Exceptions are the `Failure` case of a `Result`.

`DetectDatasetDrift` and `GetRequirements` keep the source's loops. Each is
proved equal to a specification function (`Drift`, `Requirements`), and the
lemmas state what those functions mean.

## Model

| member | source | states |
|---|---|---|
| DataValidation.DataValidation.constructor | networksecurity/components/data_validation.py:13-21 | the stage keeps the given ingestion artifact, config and schema keys |
| DataValidation.ErrorMessage | networksecurity/components/data_validation.py:101-110 | the message of each structural failure, character for character: the two column-count texts and the two required-columns texts, for the training and the testing split |
| DataValidation.DataValidation.ValidateNumberOfColumns | networksecurity/components/data_validation.py:33-42 | true iff the table has exactly as many columns as the schema has keys; names are not looked at |
| DataValidation.DataValidation.MissingColumns | networksecurity/components/data_validation.py:49-51 | a key is missing iff it is a schema key and not a column name; the missing keys are a subsequence of the schema keys, so they keep schema order |
| DataValidation.MissingFrom | networksecurity/components/data_validation.py:51 | the list comprehension keeps exactly the keys absent from the columns, each as often as it occurs among the keys, in key order |
| DataValidation.DataValidation.ValidateRequiredColumns | networksecurity/components/data_validation.py:46-56 | true iff every schema key is a column name; column order and extra columns do not matter |
| DataValidation.PassingTableMatchesSchema | networksecurity/components/data_validation.py:36-56 | a table passing both checks has exactly the schema keys as its column set, with no name repeated |
| DataValidation.PassingTablesShareColumns | networksecurity/components/data_validation.py:66-68 | when both tables pass, a name is a train column iff it is a test column, so every `current_df[column]` lookup finds its column |
| Tables.Lookup | networksecurity/components/data_validation.py:67-68 | `df[column]` yields values iff the name is a column, and those values are a column with that name; otherwise it raises KeyError (None) |
| DataValidation.ColumnTest | networksecurity/components/data_validation.py:67-77 | one loop step succeeds iff the column is in both tables and the KS test does not raise; the entry holds the oracle's p-value and drift_status iff that p-value is a number strictly below the threshold; otherwise the error is KeyError or the KS failure |
| DataValidation.DriftOverSucceedsIffAllColumnsPass | networksecurity/components/data_validation.py:66-80 | the drift loop completes iff every column's step succeeds |
| DataValidation.DriftOverFailsAtFirstFailingColumn | networksecurity/components/data_validation.py:66-88 | a failing loop raises the error of the first column whose step fails; every earlier step succeeded |
| DataValidation.DriftOverReport | networksecurity/components/data_validation.py:63-80 | a completed loop has one report entry per name, each equal to that name's step result, and status true iff no entry drifts |
| DataValidation.DriftOverStopsAtFailure | networksecurity/components/data_validation.py:66-70 | once a step has raised, the remaining columns do not change the outcome |
| DataValidation.DriftOverStep | networksecurity/components/data_validation.py:66-80 | one more loop iteration extends the report by that column's entry and clears the status if it drifts |
| DataValidation.DriftSucceedsIff | networksecurity/components/data_validation.py:66-70 | drift detection completes iff every base column is a column of the current table and no KS test raises |
| DataValidation.DriftReportMatchesColumns | networksecurity/components/data_validation.py:63-86 | the report has exactly one entry per base column, each the column's KS p-value with drift_status iff p_value < threshold (strict; NaN is not drift); the result is true iff no entry drifts; no columns gives true and an empty report |
| DataValidation.DataValidation.DetectDatasetDrift | networksecurity/components/data_validation.py:60-88 | the loop returns what `Drift` specifies: on a raised lookup or test it fails and writes nothing; otherwise it writes the report (one key per base column) once to the configured path and returns true iff no entry drifts; zero columns gives true and an empty report |
| DataValidation.DriftAfterStructuralChecks | networksecurity/components/data_validation.py:101-113 | once both tables pass the structural checks, drift detection can only fail because a KS test raised |
| DataValidation.DataValidation.InitiateDataValidation | networksecurity/components/data_validation.py:90-134 | read failures come first, then the checks in order (train count, test count, train required, test required); the first failure is the result (its message given by `ErrorMessage`) and nothing is written; a missing-column KeyError cannot be the result; when all pass, the artifact carries the drift status, the config's valid and report paths and None for both invalid paths, and the writes are the report (keys = schema keys) then the train and test CSVs |
| PyStr.TrimStartCutsSpacePrefix | setup.py:23 | the leading cut removes only whitespace and leaves a suffix that does not start with whitespace |
| PyStr.TrimEndCutsSpaceSuffix | setup.py:23 | the trailing cut removes only whitespace and leaves a prefix that does not end with whitespace |
| PyStr.StripCutsSurroundingSpace | setup.py:23 | `strip()` is a contiguous slice with only whitespace cut on each side; a non-empty result neither starts nor ends with whitespace; the result is empty iff the line is all whitespace |
| PyStr.StripIdempotent | setup.py:23 | stripping twice is stripping once |
| Setup.KeepFiltered | setup.py:22-26 | the filter is no longer than its input, and every entry is non-empty and not `-e .` |
| Setup.KeepFilteredIsFilter | setup.py:21-26 | the output is exactly the order-preserving filter: entry k is the element at the k-th kept position, positions increase (order and duplicates kept), and a position is kept iff its stripped line is non-empty and not `-e .` |
| Setup.RequirementMembership | setup.py:22-26 | a string is returned iff it is the stripped form of some line and is neither empty nor `-e .` |
| Setup.RequirementsAreStripped | setup.py:23 | every returned requirement has no surrounding whitespace |
| Setup.EditableInstallNeverReturned | setup.py:23-25 | neither the empty string nor `-e .` is ever returned, so a line that strips to `-e .`, however padded, is dropped |
| Setup.StripPaddedEditableInstall | setup.py:23 | example: `"  -e .  \n"` strips to `-e .` |
| Setup.PaddedEditableInstallDropped | setup.py:23-25 | example: for the lines `"  -e .  \n"`, `"numpy\n"`, `"numpy"` the result is `["numpy", "numpy"]`: the padded marker is dropped and the repeated requirement kept twice |
| Setup.GetRequirements | setup.py:11-30 | a missing file gives the empty list; any other open or read error propagates; otherwise the loop returns exactly `Requirements(lines)` |
| Seqs.ElementsCard | networksecurity/components/data_validation.py:36-51 | a list has at most as many distinct elements as entries, and exactly as many iff it has no repeats |

## Left out

- Reading the CSV files (`read_data`, `pd.read_csv`). This is I/O; it is a `read` parameter whose `None` stands for any exception.
- Writing the YAML report and the CSV copies, and `os.makedirs`. These are I/O. The writes are recorded, in order, as `FileWrite` values, and a failing write is not modelled.
- Loading the schema with `read_yaml_file` in `__init__`, and its failure. This is I/O. The constructor takes the schema's column keys directly. Only the keys of `schema_config["columns"]` are used, and their types are not.
- The Kolmogorov–Smirnov statistic itself (`ks_2samp`). It is floating-point numerics in a library outside the model, so it is an oracle returning a p-value in [0, 1] or NaN, or raising.
- Logging and the `print` in `get_requirements`. These are diagnostics only.
- Wrapping every exception into `NetworkSecurityException` with traceback details. This is runtime introspection. Each failure is a `ValidationError` case carrying what distinguishes it; `ErrorMessage` gives the texts of the structural-check exceptions, and the texts of library exceptions are not modelled.
- Tables with a repeated column name. Pandas would return a sub-frame for `df[column]`; `Lookup` returns the first such column instead.
- The cell values. They are modelled only as what is handed to the KS oracle. Row counts and dtypes are not checked, because the source does not check them.
- The `setup(...)` call, `main.py` and the classification metrics. These are packaging, orchestration and float metrics outside this component.
- Floating point in the drift comparison. p-values and the threshold are reals, while the code compares Python floats; for the default threshold 0.05 the two agree on every double, since no double lies strictly between 0.05 and float(0.05). NaN is modelled.
- The order of the report's entries. The report is a map, so the dict's insertion order (base-column order) is not kept; the YAML writer sorts keys by default.
- `readlines()` newline translation and file encoding. The file is given as its list of lines, terminators included.
- DataValidation.DataValidation.DetectDatasetDrift: its ensures ties the result to `Drift` but does not repeat each entry's relation to the KS oracle. That relation is stated for `Drift` by `DriftReportMatchesColumns`.

Three further facts about the code, which the model follows:

- An empty schema is not rejected. With zero columns, two zero-column tables pass and there is no drift.
- A degenerate KS sample is not turned into a dedicated error. Whatever `ks_2samp` does is left to the oracle: a NaN p-value (not drift) or a raise.
- `validation_status` is the drift result only, since a structural failure raises instead of returning a false status. Both invalid paths are always `None`.
