# Resort validator, modelled in Dafny

This project models the validation and scoring engine of the Japow resort
validator (`ResortValidator` in `validator.py`). The engine takes a batch of
ski-resort records, each a JSON object. It checks each record's fields against
fixed rules and gives it a reliability score. The score blends three weights:
source trust, the recency of the last verification, and completeness. The
engine then emits one result row per record. A batch with fewer than five
results is refused as a whole.

Modules, one per file:

- `Wrappers` (`wrappers.dfy`): `Option` and `Result`.
- `PyValues` (`py_values.dfy`): JSON values as Python objects (`Value`, `Record`), and the Python behaviour the validator relies on. That covers truth value, hashability, `dict.get`, `float()` and `int()` on non-text values, `str.replace` of one character (`RemoveAll`), and the exceptions that escape the engine. Parsing text (`float(s)`, `int(s)`, `datetime.fromisoformat`) and `datetime.isoformat()` are supplied as a `Builtins` value of total functions.
- `Scoring` (`scoring.dfy`): source trust, the recency step function, completeness, and the rounded blend. Scores are whole hundredths: `round(x, 2)` is `h / 100`.
- `ResortValidator` (`validator.py`'s class, in `validator.dfy`): the issue rules, `_parse_iso`, `_validate_entry` as a method that appends issues, one loop pass of `run_validation` (`ScoreEntry`), and `run_validation` itself as a loop with its guardrail. `ResultFor` and `FirstFailure` are the functions these methods are proved against.
- `ValidatorProperties` (`properties.dfy`): the end-to-end properties.

Behaviour of the code worth knowing, all of it modelled:

- `_parse_iso` removes every `Z` in the string (validator.py:18), wherever it stands (`ParseIsoDropsEveryZ`).
- A `region` that is a list or an object cannot be hashed. Testing it against the region set raises `TypeError` (validator.py:55), which ends the whole run.
- A timestamp with a UTC offset parses, but subtracting it from the naive clock raises `TypeError` (validator.py:26), which ends the whole run. `RecencyWeight` fails with this exception.
- A stale, complete, non-official record scores at most 0.72 (`StaleCommunityRecordIsCapped`).
- `float("")` and `int("")` raise, so an empty-string numeric field is reported as invalid.
- `run_validation` defaults `source_type` to "official" (validator.py:84); `RunValidation` has the same default.
- The guardrail's message is plain ASCII.

## Model

| member | source | states |
|---|---|---|
| `PyValues.TruncateTowardZero` | validator.py:73 | `int()` of a float truncates toward zero: the result is within one of the value, on the zero side |
| `PyValues.RemoveAll` | validator.py:18 | after `replace("Z", "")` no `Z` is left, every other character keeps its count, and the length drops by the number of `Z`s |
| `PyValues.RemoveAllSkips` | validator.py:18 | a removed character makes no difference wherever it stands in the string |
| `Scoring.RecencyWeight` | validator.py:22-32 | fails exactly for a timestamp with a UTC offset; no timestamp weighs 0; a naive timestamp at most 24 h old (or in the future) weighs 1.0, one more than 24 h and at most 72 h old weighs 0.8, an older one 0.6 |
| `Scoring.CountPresent` | validator.py:45 | the generator sum counts at most as many fields as it is given |
| `Scoring.RoundToHundredths` | validator.py:101-106 | `round(x, 2)` is the hundredth nearest to x |
| `Scoring.ScoreClosedForm` | validator.py:101-106 | the score is `40*source + 40*recency + round(20*present/7)` hundredths, and the blend is never halfway between two hundredths, so the round-half rule does not matter |
| `Scoring.ScoreBounds` | validator.py:93-106 | for every allowed weight combination the score lies in [0.28, 1.00] |
| `Scoring.CountPresentIsCardinality` | validator.py:45 | counting a list of distinct keys equals the number of distinct present keys |
| `Scoring.CompletenessIsShareOfRequiredFields` | validator.py:35-46 | completeness is (number of the seven required fields that are present) / 7, lies in [0, 1], and a numeric zero or `false` counts as present |
| `Scoring.AllPresentCountsAll` | validator.py:45-46 | a record with every required field present counts all seven |
| `ResortValidator.ValidateEntry` | validator.py:48-81 | raises `TypeError` exactly when the region is a list or object; otherwise returns the issue list of the rules, in order, and the parsed `last_verified` (the empty string when missing) |
| `ResortValidator.FieldIssuesMatchRules` | validator.py:58-77 | each numeric field's parse-then-range check yields only that field's issue, "invalid" exactly when the parse fails and "out of range" exactly when the parsed value is outside the inclusive bounds |
| `ResortValidator.IssuesMatchRules` | validator.py:52-77 | an issue is listed exactly when its rule fails: empty or falsy name, region not one of the four, field unparsable, parsed field outside its inclusive bounds; the list is empty exactly when the record is sound |
| `ResortValidator.FirstFailure` | validator.py:95-99 | the index of the first record that raises: every record before it is processed, and it is the one that raises |
| `ResortValidator.ScoreEntry` | validator.py:96-117 | one loop pass produces the per-record result of `ResultFor`, or the exception it raises |
| `ResortValidator.RunValidation` | validator.py:91-125 | the first exception raised by a record ends the run. Otherwise the run raises `RuntimeError` exactly when there are fewer than 5 records, and succeeds with exactly one row per record, in input order |
| `ValidatorProperties.IssuesInCheckOrder` | validator.py:50-77 | issues follow the order name, region, elevation, snowfall, English support, with at most one per check, so there are at most five |
| `ValidatorProperties.MissingFieldIsOutOfRange` | validator.py:59-77 | a missing numeric field defaults to 0, so it is reported out of range and never as invalid |
| `ValidatorProperties.EmptyTextFieldIsInvalid` | validator.py:58-77 | a numeric field holding the empty string fails to parse, so it is reported invalid and never out of range |
| `ValidatorProperties.ResultFailsOnlyOnTypeErrors` | validator.py:23-56 | a record raises only for a list or object region or an offset-aware timestamp, and then with `TypeError` |
| `ValidatorProperties.StatusIgnoresScore` | validator.py:108 | the status is "valid" exactly when no rule fails, whatever the source type and the clock, so it is independent of the score |
| `ValidatorProperties.ScoreIsRoundedBlend` | validator.py:101-106 | the result's score is the unique nearest hundredth to `0.4*source + 0.4*recency + 0.2*completeness`, and lies in [0.28, 1.00] |
| `ValidatorProperties.SourceTypeShiftsOnlyScore` | validator.py:93 | "official" rather than any other source type leaves name, status and timestamp unchanged and raises the score by exactly 0.12 |
| `ValidatorProperties.OutputFields` | validator.py:110-117 | the name is copied as is (a present null stays null) and "UNKNOWN" is used only for a missing key; the verification time is null exactly when no timestamp parsed, and is otherwise its ISO text plus "Z" |
| `ValidatorProperties.RecencyMonotone` | validator.py:26-32 | the recency weight never increases as the verification gets older |
| `ValidatorProperties.RecencyBandEdges` | validator.py:24-32 | exactly 24 h old weighs 1.0 and one second more weighs 0.8; exactly 72 h weighs 0.8 and one second more 0.6; a future timestamp weighs 1.0; no timestamp weighs 0 |
| `ValidatorProperties.ParseIsoDropsEveryZ` | validator.py:16-20 | a `Z` anywhere in the timestamp is ignored; a non-string or empty value gives no timestamp instead of raising |
| `ValidatorProperties.FreshCompleteOfficialRecordScoresFull` | validator.py:93-117 | a sound, fully complete, official record verified within 24 h is "valid" with score 1.00 |
| `ValidatorProperties.StaleCommunityRecordIsCapped` | validator.py:93-106 | a non-official record verified more than 72 h ago scores at most 0.72 |

## Left out

- Loading the batch (validator.py:85-89): the existence check, `FileNotFoundError` and `json.load` are I/O. The model takes the already-decoded list of records, so a missing file or undecodable JSON is not modelled.
- Records that are not JSON objects, and a top level that is not a list: `Record` is always a map from keys to values.
- The clock: `datetime.utcnow()` is read once per record in the source. The model takes one naive UTC instant, `now`, for the whole run.
- Timestamps are whole seconds. Sub-second precision of `datetime` is not modelled.
- Text parsing: the results of `float(s)`, `int(s)` and `datetime.fromisoformat(s)` on strings, and the text of `isoformat()`, are abstract functions in `Builtins`. The empty string is fixed as unparsable for all three; every other string is left to those functions.
- Floating point: JSON numbers and parsed floats are exact reals. NaN and infinities are not represented, and `float()` of an integer too large for a double (an `OverflowError` the source reports as "Invalid") gives the exact value.
- `Scoring.RoundToHundredths`: rounds ties upward, while Python's `round` rounds them to even. This is never observable here, because `Scoring.ScoreClosedForm` shows that no score is a tie. The blend is computed exactly, so float rounding error is not modelled, and the score is a whole number of hundredths rather than the float nearest to it.
- Issue texts: issues are the datatype `Issue`. `Message` gives each one's source text, but `ValidateEntry` returns the issues rather than the strings.
- The exception messages are abbreviated. The garbled em dash of validator.py:122 is not reproduced.
- scripts/build_weather_snapshot.py (HTTP calls and file writes), run_validation_daily.py (a scheduler that prints counts) and validate_resort_data.py (a command-line wrapper) are not part of this model.
