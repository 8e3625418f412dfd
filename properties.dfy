/**
 * What the validator promises about its output, proved of the model: the
 * issue rules, how status, score and timestamp fields are derived, and how
 * the source classification and the age of a verification affect a result.
 */
module ValidatorProperties {
  import opened Wrappers
  import opened PyValues
  import opened Scoring
  import opened ResortValidator

  predicate RankedFrom(s: seq<Issue>, lo: nat)
  {
    forall p, q :: 0 <= p < q < |s| ==> lo <= Rank(s[p]) < Rank(s[q])
  }

  lemma {:induction false} RankedAppend(s: seq<Issue>, f: NumericField, r: Record, b: Builtins)
    requires RankedFrom(s, 0)
    requires forall p :: 0 <= p < |s| ==> Rank(s[p]) < FieldRank(f)
    ensures RankedFrom(s + FieldIssues(r, f, b), 0)
    ensures forall p :: 0 <= p < |s + FieldIssues(r, f, b)| ==> Rank((s + FieldIssues(r, f, b))[p]) <= FieldRank(f)
  {
  }

  /**
   * Issues come in the fixed order of the checks (name, region, elevation,
   * snowfall, English support) with at most one per check, so there are at
   * most five.
   */
  lemma IssuesInCheckOrder(r: Record, b: Builtins)
    ensures forall p, q :: 0 <= p < q < |Issues(r, b)| ==> Rank(Issues(r, b)[p]) < Rank(Issues(r, b)[q])
    ensures |Issues(r, b)| <= 5
  {
    var h := HeaderIssues(r);
    assert forall p :: 0 <= p < |h| ==> Rank(h[p]) < 2;
    RankedAppend(h, Elevation, r, b);
    var s1 := h + FieldIssues(r, Elevation, b);
    RankedAppend(s1, Snowfall, r, b);
    var s2 := s1 + FieldIssues(r, Snowfall, b);
    RankedAppend(s2, EnglishSupport, r, b);
  }

  /** A numeric field that is missing reads as 0: it is out of range, never unparsable. */
  lemma MissingFieldIsOutOfRange(r: Record, f: NumericField, b: Builtins)
    requires Key(f) !in r
    ensures OutOfRange(f) in Issues(r, b)
    ensures Unparsable(f) !in Issues(r, b)
  {
    IssuesMatchRules(r, b);
  }

  /** An empty string cannot be parsed as a number: the field is invalid, not out of range. */
  lemma EmptyTextFieldIsInvalid(r: Record, f: NumericField, b: Builtins)
    requires Key(f) in r && r[Key(f)] == Str("")
    ensures Unparsable(f) in Issues(r, b)
    ensures OutOfRange(f) !in Issues(r, b)
  {
    IssuesMatchRules(r, b);
  }

  /** A record fails only on a list or dict region, or on a timestamp with a UTC offset. */
  lemma ResultFailsOnlyOnTypeErrors(entry: Record, sourceType: string, now: int, b: Builtins)
    ensures ResultFor(entry, sourceType, now, b).Failure? <==>
              !Hashable(Get(entry, "region", Null)) || (VerifiedAt(entry, b).Some? && VerifiedAt(entry, b).value.Aware?)
    ensures ResultFor(entry, sourceType, now, b).Failure? ==> ResultFor(entry, sourceType, now, b).error.TypeError?
  {
  }

  /**
   * The status is "valid" exactly when no rule is broken; it depends neither
   * on the source classification nor on the clock, hence not on the score.
   */
  lemma StatusIgnoresScore(entry: Record, st1: string, now1: int, st2: string, now2: int, b: Builtins)
    requires ResultFor(entry, st1, now1, b).Success? && ResultFor(entry, st2, now2, b).Success?
    ensures ResultFor(entry, st1, now1, b).value.validationStatus == ResultFor(entry, st2, now2, b).value.validationStatus
    ensures ResultFor(entry, st1, now1, b).value.validationStatus == Valid <==> forall i :: !Raised(entry, i, b)
  {
  }

  /**
   * The score is `round(0.4*source + 0.4*recency + 0.2*completeness, 2)`, the
   * blend is never halfway between two hundredths, and it lies in [0.28, 1.00].
   */
  lemma ScoreIsRoundedBlend(entry: Record, sourceType: string, now: int, b: Builtins)
    requires ResultFor(entry, sourceType, now, b).Success?
    ensures var x := Reliability(SourceWeight(sourceType),
                                 RecencyWeight(VerifiedAt(entry, b), now).value,
                                 CompletenessWeight(entry));
            var h := ResultFor(entry, sourceType, now, b).value.reliabilityScore;
            h as real - 0.5 < 100.0 * x < h as real + 0.5
    ensures 28 <= ResultFor(entry, sourceType, now, b).value.reliabilityScore <= 100
  {
    var recency := RecencyWeight(VerifiedAt(entry, b), now).value;
    var n := CountPresent(entry, REQUIRED_FIELDS);
    assert CompletenessWeight(entry) == n as real / 7.0;
    ScoreClosedForm(sourceType, recency, n);
  }

  /**
   * Switching from a non-official classification to "official" changes only
   * the score, and raises it by exactly 0.12 (0.4 * (1.0 - 0.7)).
   */
  lemma SourceTypeShiftsOnlyScore(entry: Record, other: string, now: int, b: Builtins)
    requires other != OFFICIAL
    ensures var official := ResultFor(entry, OFFICIAL, now, b);
            var community := ResultFor(entry, other, now, b);
            && official.Success? == community.Success?
            && (official.Failure? ==> official.error == community.error)
            && (official.Success? ==>
                  && official.value == community.value.(reliabilityScore := official.value.reliabilityScore)
                  && official.value.reliabilityScore == community.value.reliabilityScore + 12)
  {
    var official := ResultFor(entry, OFFICIAL, now, b);
    if official.Success? {
      var recency := RecencyWeight(VerifiedAt(entry, b), now).value;
      var n := CountPresent(entry, REQUIRED_FIELDS);
      assert CompletenessWeight(entry) == n as real / 7.0;
      ScoreClosedForm(OFFICIAL, recency, n);
      ScoreClosedForm(other, recency, n);
    }
  }

  /**
   * `resort_name` is copied as it is (a present null stays null), "UNKNOWN"
   * stands in only for a missing key, and the verification time is null
   * exactly when the timestamp did not parse, otherwise its text ends in "Z".
   */
  lemma OutputFields(entry: Record, sourceType: string, now: int, b: Builtins)
    requires ResultFor(entry, sourceType, now, b).Success?
    ensures var row := ResultFor(entry, sourceType, now, b).value;
            && ("resort_name" in entry ==> row.resortName == entry["resort_name"])
            && ("resort_name" !in entry ==> row.resortName == Str("UNKNOWN"))
            && (row.validatorVerifiedAt.None? <==> VerifiedAt(entry, b).None?)
            && (row.validatorVerifiedAt.Some? ==>
                  row.validatorVerifiedAt.value == b.isoFormat(VerifiedAt(entry, b).value) + "Z")
  {
  }

  /** The recency weight never grows as the verification gets older. */
  lemma RecencyMonotone(t1: int, t2: int, now: int)
    requires now - t1 <= now - t2
    ensures RecencyWeight(Some(Naive(t2)), now).value <= RecencyWeight(Some(Naive(t1)), now).value
  {
  }

  /**
   * The bands are closed on the right: exactly 24 hours is still fresh,
   * one second more is not; a timestamp in the future counts as fresh;
   * no timestamp weighs nothing.
   */
  lemma RecencyBandEdges(now: int)
    ensures RecencyWeight(Some(Naive(now - 24 * 3600)), now) == Success(1.0)
    ensures RecencyWeight(Some(Naive(now - 24 * 3600 - 1)), now) == Success(0.8)
    ensures RecencyWeight(Some(Naive(now - 72 * 3600)), now) == Success(0.8)
    ensures RecencyWeight(Some(Naive(now - 72 * 3600 - 1)), now) == Success(0.6)
    ensures RecencyWeight(Some(Naive(now + 1)), now) == Success(1.0)
    ensures RecencyWeight(None, now) == Success(0.0)
  {
  }

  /**
   * Every "Z" in a timestamp is dropped before parsing, wherever it stands,
   * and anything other than a string (a missing key included) gives no
   * timestamp.
   */
  lemma ParseIsoDropsEveryZ(prefix: string, suffix: string, v: Value, b: Builtins)
    ensures ParseIso(Str(prefix + "Z" + suffix), b) == ParseIso(Str(prefix + suffix), b)
    ensures !v.Str? ==> ParseIso(v, b) == None
    ensures ParseIso(Str(""), b) == None
  {
    RemoveAllSkips(prefix, suffix, 'Z');
    assert prefix + "Z" + suffix == prefix + ['Z'] + suffix;
  }

  /**
   * A structurally sound, fully complete, officially sourced record verified
   * within the last 24 hours is "valid" with score 1.00.
   */
  lemma FreshCompleteOfficialRecordScoresFull(entry: Record, now: int, b: Builtins)
    requires forall k :: k in REQUIRED_FIELDS ==> Present(entry, k)
    requires forall i :: !Raised(entry, i, b)
    requires VerifiedAt(entry, b).Some? && VerifiedAt(entry, b).value.Naive?
    requires now - VerifiedAt(entry, b).value.seconds <= 24 * 3600
    ensures ResultFor(entry, OFFICIAL, now, b).Success?
    ensures ResultFor(entry, OFFICIAL, now, b).value.validationStatus == Valid
    ensures ResultFor(entry, OFFICIAL, now, b).value.reliabilityScore == 100
  {
    AllPresentCountsAll(entry, REQUIRED_FIELDS);
    assert !Raised(entry, BadRegion, b);
    IssuesMatchRules(entry, b);
    StatusIgnoresScore(entry, OFFICIAL, now, OFFICIAL, now, b);
    ScoreClosedForm(OFFICIAL, 1.0, 7);
  }

  /** A community record verified more than 72 hours ago scores at most 0.72, however complete. */
  lemma StaleCommunityRecordIsCapped(entry: Record, other: string, now: int, b: Builtins)
    requires other != OFFICIAL
    requires ResultFor(entry, other, now, b).Success?
    requires VerifiedAt(entry, b).Some? && now - VerifiedAt(entry, b).value.seconds > 72 * 3600
    ensures ResultFor(entry, other, now, b).value.reliabilityScore <= 72
  {
    var n := CountPresent(entry, REQUIRED_FIELDS);
    assert CompletenessWeight(entry) == n as real / 7.0;
    ScoreClosedForm(other, 0.6, n);
  }
}
