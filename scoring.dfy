/**
 * The weighting model of the resort validator: source trust, recency of the
 * last verification, completeness of the record, and the rounded blend of the
 * three. Scores are kept as whole hundredths: `round(x, 2)` is `h / 100`.
 */
module Scoring {
  import opened Wrappers
  import opened PyValues

  const SECONDS_PER_HOUR: int := 3600

  /** The classification that earns full source trust. */
  const OFFICIAL: string := "official"

  /** The fields whose presence makes a record complete, in the order the source lists them. */
  const REQUIRED_FIELDS: seq<string> :=
    ["resort_name", "region", "elevation_m", "terrain_mix", "avg_snowfall_cm", "english_support", "last_verified"]

  /** Source trust: full for official data, 0.7 for anything else. */
  function SourceWeight(sourceType: string): real
  {
    if sourceType == OFFICIAL then 1.0 else 0.7
  }

  /**
   * Freshness of the last verification, seen from the naive UTC instant `now`.
   * Subtracting an aware timestamp from the naive clock raises TypeError.
   */
  function RecencyWeight(verifiedAt: Option<DateTime>, now: int): (r: Result<real, Exception>)
    ensures r.Failure? <==> verifiedAt.Some? && verifiedAt.value.Aware?
    ensures r.Success? ==> r.value in {0.0, 0.6, 0.8, 1.0}
    ensures r.Success? ==> (r.value == 0.0 <==> verifiedAt.None?)
    ensures verifiedAt.Some? && verifiedAt.value.Naive? ==>
              var age := now - verifiedAt.value.seconds;
              && (age <= 24 * SECONDS_PER_HOUR ==> r == Success(1.0))
              && (24 * SECONDS_PER_HOUR < age <= 72 * SECONDS_PER_HOUR ==> r == Success(0.8))
              && (72 * SECONDS_PER_HOUR < age ==> r == Success(0.6))
  {
    match verifiedAt
    case None => Success(0.0)
    case Some(Aware(_, _)) => Failure(TypeError("can't subtract offset-naive and offset-aware datetimes"))
    case Some(Naive(t)) =>
      var age := now - t;
      if age <= 24 * SECONDS_PER_HOUR then Success(1.0)
      else if age <= 72 * SECONDS_PER_HOUR then Success(0.8)
      else Success(0.6)
  }

  /** A field counts as present unless it is missing, None or the empty string. */
  predicate Present(r: Record, key: string)
  {
    key in r && r[key] != Null && r[key] != Str("")
  }

  /** How many of `keys` are present in `r` (the generator sum of the source). */
  function CountPresent(r: Record, keys: seq<string>): (n: nat)
    ensures n <= |keys|
  {
    if keys == [] then 0
    else (if Present(r, keys[0]) then 1 else 0) + CountPresent(r, keys[1..])
  }

  /** The fraction of the required fields that are present. */
  function CompletenessWeight(r: Record): real
  {
    CountPresent(r, REQUIRED_FIELDS) as real / |REQUIRED_FIELDS| as real
  }

  /** The unrounded blend: trust and freshness weigh 0.4 each, completeness 0.2. */
  function Reliability(source: real, recency: real, completeness: real): real
  {
    0.4 * source + 0.4 * recency + 0.2 * completeness
  }

  /** `round(x, 2)` in hundredths: the nearest hundredth, ties taken upward. */
  function RoundToHundredths(x: real): (h: int)
    ensures h as real - 0.5 <= 100.0 * x < h as real + 0.5
  {
    (100.0 * x + 0.5).Floor
  }

  /** The score of a record with the given trust, recency and number of present fields. */
  function Score(sourceType: string, recency: real, present: nat): int
  {
    RoundToHundredths(Reliability(SourceWeight(sourceType), recency, present as real / 7.0))
  }

  /** Adding a whole number commutes with rounding down. */
  lemma FloorShift(n: int, y: real)
    ensures (n as real + y).Floor == n + y.Floor
  {
  }

  /**
   * The score in closed form, `40*source + 40*recency + round(20*present/7)`
   * hundredths. The fractional part of 20*present/7 is a multiple of 1/7, never
   * one half, so the blend is never halfway between two hundredths: every
   * rounding rule (Python's round-half-even included) picks the same one.
   */
  lemma {:induction false} ScoreClosedForm(sourceType: string, recency: real, present: nat)
    requires recency in {0.0, 0.6, 0.8, 1.0}
    requires present <= 7
    ensures var x := Reliability(SourceWeight(sourceType), recency, present as real / 7.0);
            var h := Score(sourceType, recency, present);
            && h as real == 40.0 * SourceWeight(sourceType) + 40.0 * recency + ((40 * present + 7) / 14) as real
            && h as real - 0.5 < 100.0 * x < h as real + 0.5
  {
    var x := Reliability(SourceWeight(sourceType), recency, present as real / 7.0);
    var m := (40.0 * SourceWeight(sourceType) + 40.0 * recency).Floor;
    assert m as real == 40.0 * SourceWeight(sourceType) + 40.0 * recency;
    var y := (20 * present) as real / 7.0;
    assert 100.0 * x == m as real + y;
    FloorShift(m, y + 0.5);
    assert Score(sourceType, recency, present) == m + (y + 0.5).Floor;
    var q := (40 * present + 7) / 14;
    assert (y + 0.5).Floor == q by {
      assert y + 0.5 == (40 * present + 7) as real / 14.0;
      assert q as real <= (40 * present + 7) as real / 14.0 < q as real + 1.0;
    }
    assert (40 * present + 7) % 14 != 0;
    assert q as real < y + 0.5;
  }

  /** The score lies between 0.28 (community, never verified, empty) and 1.00. */
  lemma ScoreBounds(sourceType: string, recency: real, present: nat)
    requires recency in {0.0, 0.6, 0.8, 1.0}
    requires present <= 7
    ensures 28 <= Score(sourceType, recency, present) <= 100
  {
    ScoreClosedForm(sourceType, recency, present);
  }

  /** Counting a list of distinct keys gives the number of distinct present keys. */
  lemma {:induction false} CountPresentIsCardinality(r: Record, keys: seq<string>)
    requires forall i, j :: 0 <= i < j < |keys| ==> keys[i] != keys[j]
    ensures CountPresent(r, keys) == |set k | k in keys && Present(r, k)|
  {
    if keys != [] {
      CountPresentIsCardinality(r, keys[1..]);
      var rest := set k | k in keys[1..] && Present(r, k);
      var all := set k | k in keys && Present(r, k);
      assert keys[0] !in keys[1..];
      if Present(r, keys[0]) {
        assert all == rest + {keys[0]};
      } else {
        assert all == rest;
      }
    }
  }

  /**
   * Completeness is the share of the seven required fields that are present,
   * so it lies in [0, 1]; a numeric zero or `false` counts as present.
   */
  lemma CompletenessIsShareOfRequiredFields(r: Record)
    ensures CompletenessWeight(r) == |set k | k in REQUIRED_FIELDS && Present(r, k)| as real / 7.0
    ensures 0.0 <= CompletenessWeight(r) <= 1.0
    ensures forall k :: k in r && r[k] in {Int(0), Float(0.0), Bool(false)} ==> Present(r, k)
  {
    CountPresentIsCardinality(r, REQUIRED_FIELDS);
  }

  /** When every key is present, all of them are counted. */
  lemma {:induction false} AllPresentCountsAll(r: Record, keys: seq<string>)
    requires forall k :: k in keys ==> Present(r, k)
    ensures CountPresent(r, keys) == |keys|
  {
    if keys != [] {
      AllPresentCountsAll(r, keys[1..]);
    }
  }
}
