/**
 * The resort validator: structural checks of one record, the result record
 * built for it, and the run over a batch with its minimum-size guardrail.
 */
module ResortValidator {
  import opened Wrappers
  import opened PyValues
  import opened Scoring

  const VALID_REGIONS: set<string> := {"Hokkaido", "Nagano", "Niigata", "Tohoku"}

  /** A batch that yields fewer results than this is refused as a whole. */
  const MIN_RESULTS: nat := 5

  const UNHASHABLE_REGION: Exception := TypeError("unhashable type")
  const TOO_FEW_RESULTS: Exception := RuntimeError("Validator returned too few resorts - refusing to publish.")

  /** The three range-checked numeric fields. */
  datatype NumericField = Elevation | Snowfall | EnglishSupport

  function Key(f: NumericField): string
  {
    match f
    case Elevation => "elevation_m"
    case Snowfall => "avg_snowfall_cm"
    case EnglishSupport => "english_support"
  }

  /** Inclusive lower bound of a numeric field. */
  function Lower(f: NumericField): real
  {
    match f
    case Elevation => 100.0
    case Snowfall => 100.0
    case EnglishSupport => 1.0
  }

  /** Inclusive upper bound of a numeric field. */
  function Upper(f: NumericField): real
  {
    match f
    case Elevation => 2500.0
    case Snowfall => 2000.0
    case EnglishSupport => 5.0
  }

  /**
   * The field's value as the validator reads it: a missing key reads as 0;
   * elevation and snowfall go through `float()`, English support through `int()`.
   */
  function ParseField(r: Record, f: NumericField, b: Builtins): Option<real>
  {
    var v := Get(r, Key(f), Int(0));
    if f == EnglishSupport then
      match ToInt(v, b)
      case None => None
      case Some(n) => Some(n as real)
    else ToFloat(v, b)
  }

  /** A structural problem of a record. */
  datatype Issue =
    | MissingName
    | BadRegion
    | OutOfRange(field: NumericField)
    | Unparsable(field: NumericField)

  /** The text the source appends for an issue. */
  function Message(i: Issue): string
  {
    match i
    case MissingName => "Missing resort_name"
    case BadRegion => "Invalid or missing region"
    case OutOfRange(f) => Key(f) + " out of range"
    case Unparsable(f) => "Invalid " + Key(f)
  }

  /** The position of an issue's rule in the fixed order of checks. */
  function Rank(i: Issue): nat
  {
    match i
    case MissingName => 0
    case BadRegion => 1
    case OutOfRange(f) => FieldRank(f)
    case Unparsable(f) => FieldRank(f)
  }

  function FieldRank(f: NumericField): nat
  {
    match f
    case Elevation => 2
    case Snowfall => 3
    case EnglishSupport => 4
  }

  predicate InValidRegions(v: Value)
  {
    v.Str? && v.s in VALID_REGIONS
  }

  /** The rule behind each issue, stated on its own. */
  predicate Raised(r: Record, i: Issue, b: Builtins)
  {
    match i
    case MissingName => !Truthy(Get(r, "resort_name", Null))
    case BadRegion => !InValidRegions(Get(r, "region", Null))
    case Unparsable(f) => ParseField(r, f, b).None?
    case OutOfRange(f) =>
      ParseField(r, f, b).Some? && !(Lower(f) <= ParseField(r, f, b).value <= Upper(f))
  }

  /** The parse-then-range check of one numeric field: at most one issue. */
  function FieldIssues(r: Record, f: NumericField, b: Builtins): seq<Issue>
  {
    match ParseField(r, f, b)
    case None => [Unparsable(f)]
    case Some(x) => if Lower(f) <= x <= Upper(f) then [] else [OutOfRange(f)]
  }

  /** The name and region checks, in that order. */
  function HeaderIssues(r: Record): seq<Issue>
  {
    (if Truthy(Get(r, "resort_name", Null)) then [] else [MissingName])
    + (if InValidRegions(Get(r, "region", Null)) then [] else [BadRegion])
  }

  /** The issue list of a record, in the order the checks run. */
  function Issues(r: Record, b: Builtins): seq<Issue>
  {
    HeaderIssues(r)
    + FieldIssues(r, Elevation, b)
    + FieldIssues(r, Snowfall, b)
    + FieldIssues(r, EnglishSupport, b)
  }

  /** A record is sound when none of the rules is broken. */
  ghost predicate Sound(r: Record, b: Builtins)
  {
    forall i :: !Raised(r, i, b)
  }

  /** A numeric field's check lists its issue exactly when that issue's rule is broken. */
  lemma FieldIssuesMatchRules(r: Record, f: NumericField, b: Builtins)
    ensures forall i :: i in FieldIssues(r, f, b) ==> i == OutOfRange(f) || i == Unparsable(f)
    ensures OutOfRange(f) in FieldIssues(r, f, b) <==> Raised(r, OutOfRange(f), b)
    ensures Unparsable(f) in FieldIssues(r, f, b) <==> Raised(r, Unparsable(f), b)
  {
  }

  /** Each issue is listed exactly when its rule is broken. */
  lemma IssuesMatchRules(r: Record, b: Builtins)
    ensures forall i :: i in Issues(r, b) <==> Raised(r, i, b)
    ensures Issues(r, b) == [] <==> Sound(r, b)
  {
    var h := HeaderIssues(r);
    var e, s, g := FieldIssues(r, Elevation, b), FieldIssues(r, Snowfall, b), FieldIssues(r, EnglishSupport, b);
    FieldIssuesMatchRules(r, Elevation, b);
    FieldIssuesMatchRules(r, Snowfall, b);
    FieldIssuesMatchRules(r, EnglishSupport, b);
    forall i
      ensures i in Issues(r, b) <==> Raised(r, i, b)
    {
      assert i in Issues(r, b) <==> i in h || i in e || i in s || i in g;
      match i
      case MissingName =>
      case BadRegion =>
      case OutOfRange(f) =>
        assert i in Issues(r, b) <==> i in FieldIssues(r, f, b);
      case Unparsable(f) =>
        assert i in Issues(r, b) <==> i in FieldIssues(r, f, b);
    }
    if Issues(r, b) != [] {
      assert Issues(r, b)[0] in Issues(r, b);
    }
  }

  /** `_parse_iso`: drop every "Z", then parse; anything but a string gives no timestamp. */
  function ParseIso(ts: Value, b: Builtins): Option<DateTime>
  {
    if ts.Str? then FromIsoFormat(RemoveAll(ts.s, 'Z'), b) else None
  }

  /** The timestamp a record was last verified at, if it has a readable one. */
  function VerifiedAt(r: Record, b: Builtins): Option<DateTime>
  {
    ParseIso(Get(r, "last_verified", Str("")), b)
  }

  /** What `_validate_entry` returns: the issues and the parsed timestamp. */
  datatype Checked = Checked(issues: seq<Issue>, verifiedAt: Option<DateTime>)

  /**
   * `_validate_entry`: appends one issue per failing check, in a fixed order.
   * Testing a list or dict region against the region set raises TypeError.
   */
  method ValidateEntry(entry: Record, b: Builtins) returns (res: Result<Checked, Exception>)
    ensures res.Failure? <==> !Hashable(Get(entry, "region", Null))
    ensures res.Failure? ==> res.error == UNHASHABLE_REGION
    ensures res.Success? ==> res.value.issues == Issues(entry, b)
    ensures res.Success? ==> res.value.verifiedAt == VerifiedAt(entry, b)
  {
    var issues: seq<Issue> := [];
    if !Truthy(Get(entry, "resort_name", Null)) {
      issues := issues + [MissingName];
    }
    var region := Get(entry, "region", Null);
    if !Hashable(region) {
      return Failure(UNHASHABLE_REGION);
    }
    if !InValidRegions(region) {
      issues := issues + [BadRegion];
    }
    assert issues == HeaderIssues(entry);
    match ParseField(entry, Elevation, b) {
      case None =>
        issues := issues + [Unparsable(Elevation)];
      case Some(elev) =>
        if !(100.0 <= elev <= 2500.0) {
          issues := issues + [OutOfRange(Elevation)];
        }
    }
    assert issues == HeaderIssues(entry) + FieldIssues(entry, Elevation, b);
    match ParseField(entry, Snowfall, b) {
      case None =>
        issues := issues + [Unparsable(Snowfall)];
      case Some(snow) =>
        if !(100.0 <= snow <= 2000.0) {
          issues := issues + [OutOfRange(Snowfall)];
        }
    }
    assert issues == HeaderIssues(entry) + FieldIssues(entry, Elevation, b) + FieldIssues(entry, Snowfall, b);
    match ParseField(entry, EnglishSupport, b) {
      case None =>
        issues := issues + [Unparsable(EnglishSupport)];
      case Some(eng) =>
        if !(1.0 <= eng <= 5.0) {
          issues := issues + [OutOfRange(EnglishSupport)];
        }
    }
    var verifiedAt := ParseIso(Get(entry, "last_verified", Str("")), b);
    return Success(Checked(issues, verifiedAt));
  }

  datatype Status = Valid | Invalid

  /** One output row. `reliabilityScore` is in hundredths. */
  datatype ResultRecord = ResultRecord(
    resortName: Value,
    validationStatus: Status,
    reliabilityScore: int,
    validatorVerifiedAt: Option<string>)

  /** `verified_at.isoformat() + "Z"`, or null when there is no timestamp. */
  function VerifiedAtText(verifiedAt: Option<DateTime>, b: Builtins): Option<string>
  {
    match verifiedAt
    case None => None
    case Some(t) => Some(b.isoFormat(t) + "Z")
  }

  /** The result the loop body of `run_validation` produces for one record, or the exception it raises. */
  ghost function ResultFor(entry: Record, sourceType: string, now: int, b: Builtins): Result<ResultRecord, Exception>
  {
    if !Hashable(Get(entry, "region", Null)) then Failure(UNHASHABLE_REGION)
    else
      var verifiedAt := VerifiedAt(entry, b);
      match RecencyWeight(verifiedAt, now)
      case Failure(e) => Failure(e)
      case Success(recency) =>
        var score := RoundToHundredths(Reliability(SourceWeight(sourceType), recency, CompletenessWeight(entry)));
        var status := if Sound(entry, b) then Valid else Invalid;
        Success(ResultRecord(Get(entry, "resort_name", Str("UNKNOWN")), status, score, VerifiedAtText(verifiedAt, b)))
  }

  /** The number of leading records that are processed without an exception. */
  ghost function FirstFailure(data: seq<Record>, sourceType: string, now: int, b: Builtins): (k: nat)
    ensures k <= |data|
    ensures forall j :: 0 <= j < k ==> ResultFor(data[j], sourceType, now, b).Success?
    ensures k < |data| ==> ResultFor(data[k], sourceType, now, b).Failure?
  {
    if data == [] then 0
    else if ResultFor(data[0], sourceType, now, b).Failure? then 0
    else 1 + FirstFailure(data[1..], sourceType, now, b)
  }

  /** The record that raises first is the first record that raises. */
  lemma FirstFailureAt(data: seq<Record>, sourceType: string, now: int, b: Builtins, i: nat)
    requires i <= |data|
    requires forall j :: 0 <= j < i ==> ResultFor(data[j], sourceType, now, b).Success?
    requires i < |data| ==> ResultFor(data[i], sourceType, now, b).Failure?
    ensures FirstFailure(data, sourceType, now, b) == i
  {
  }

  /**
   * One pass of the loop body of `run_validation`: validate, weigh, score and
   * build the result row of a record.
   */
  method ScoreEntry(entry: Record, sourceType: string, now: int, b: Builtins)
    returns (res: Result<ResultRecord, Exception>)
    ensures res == ResultFor(entry, sourceType, now, b)
  {
    var checked := ValidateEntry(entry, b);
    if checked.Failure? {
      return Failure(checked.error);
    }
    var recency := RecencyWeight(checked.value.verifiedAt, now);
    if recency.Failure? {
      return Failure(recency.error);
    }
    var completeness := CompletenessWeight(entry);
    var reliability := RoundToHundredths(Reliability(SourceWeight(sourceType), recency.value, completeness));
    IssuesMatchRules(entry, b);
    var status := if checked.value.issues == [] then Valid else Invalid;
    return Success(ResultRecord(
      Get(entry, "resort_name", Str("UNKNOWN")),
      status,
      reliability,
      VerifiedAtText(checked.value.verifiedAt, b)));
  }

  /**
   * `run_validation` on an already-loaded batch: the first exception a record
   * raises ends the run; otherwise one result per record, in input order,
   * unless there are fewer than five, which raises RuntimeError.
   */
  method RunValidation(data: seq<Record>, now: int, b: Builtins, sourceType: string := OFFICIAL)
    returns (res: Result<seq<ResultRecord>, Exception>)
    ensures var k := FirstFailure(data, sourceType, now, b);
            k < |data| ==> res == Failure(ResultFor(data[k], sourceType, now, b).error)
    ensures FirstFailure(data, sourceType, now, b) == |data| && |data| < MIN_RESULTS ==> res == Failure(TOO_FEW_RESULTS)
    ensures res.Success? <==> FirstFailure(data, sourceType, now, b) == |data| && |data| >= MIN_RESULTS
    ensures res.Success? ==> |res.value| == |data|
    ensures res.Success? ==> forall j :: 0 <= j < |data| ==> res.value[j] == ResultFor(data[j], sourceType, now, b).value
  {
    var results: seq<ResultRecord> := [];
    for i := 0 to |data|
      invariant |results| == i
      invariant forall j :: 0 <= j < i ==> ResultFor(data[j], sourceType, now, b).Success?
      invariant forall j :: 0 <= j < i ==> results[j] == ResultFor(data[j], sourceType, now, b).value
    {
      var row := ScoreEntry(data[i], sourceType, now, b);
      if row.Failure? {
        FirstFailureAt(data, sourceType, now, b, i);
        return Failure(row.error);
      }
      results := results + [row.value];
    }
    FirstFailureAt(data, sourceType, now, b, |data|);
    if |results| < MIN_RESULTS {
      return Failure(TOO_FEW_RESULTS);
    }
    return Success(results);
  }
}
