/**
 * The interquartile outlier band of a list of prices
 * (Pipeline/Infrastructure/IListDecimalExtensions.cs).
 *
 * The quartiles are read at fixed positions of the list as given: the list
 * is NOT sorted first. The band stretches the quartile gap by a multiplier
 * on both sides: 1.5 for the weak band, 3 for the strong band.
 */
module Interquartile {
  import opened Outcomes

  const WeakOutlier: real := 1.5
  const StrongOutlier: real := 3.0

  function Abs(x: real): (r: real)
    ensures r >= 0.0 && (r == x || r == -x)
  {
    if x < 0.0 then -x else x
  }

  /** Position of the first quartile: the count times 0.25, truncated. */
  function FirstQuartileIndex(n: nat): nat {
    n / 4
  }

  /** Position of the third quartile: the count times 0.75, truncated. */
  function ThirdQuartileIndex(n: nat): nat {
    (3 * n) / 4
  }

  /** Both quartile positions fall inside a non-empty list, in order. */
  lemma QuartileIndicesInRange(n: nat)
    requires n > 0
    ensures FirstQuartileIndex(n) <= ThirdQuartileIndex(n) < n
  {
  }

  /** The first and the third quartile of a non-empty list, read where
      they stand. */
  function Quartiles(vals: seq<real>): (real, real)
    requires |vals| > 0
  {
    QuartileIndicesInRange(|vals|);
    (vals[FirstQuartileIndex(|vals|)], vals[ThirdQuartileIndex(|vals|)])
  }

  /** The distance between the two quartiles times the multiplier. */
  function Stretch(q: (real, real), multiplier: real): real {
    Abs(q.1 - q.0) * multiplier
  }

  /** The band (lower, upper) of a non-empty list for a multiplier. */
  function Band(vals: seq<real>, multiplier: real): (real, real)
    requires |vals| > 0
  {
    var q := Quartiles(vals);
    (q.0 - Stretch(q, multiplier), q.1 + Stretch(q, multiplier))
  }

  /** A larger multiplier stretches further. */
  lemma StretchMonotone(q: (real, real), m1: real, m2: real)
    requires m1 <= m2
    ensures Stretch(q, m1) <= Stretch(q, m2)
  {
    var d := Abs(q.1 - q.0);
    assert d * m2 - d * m1 == d * (m2 - m1);
  }

  /**
   * CalculateInterquartileRange: the band, or the list indexer's
   * ArgumentOutOfRangeException when the list is empty.
   */
  function InterquartileRange(vals: seq<real>, multiplier: real): (r: Result<(real, real)>)
    ensures r.Err? <==> vals == []
    ensures r.Err? ==> r.error == ArgumentOutOfRange
    ensures r.Ok? ==> r.value == Band(vals, multiplier)
  {
    if |vals| == 0 then Err(ArgumentOutOfRange) else Ok(Band(vals, multiplier))
  }

  /** InterquartileWeakOutlierRange. */
  function WeakRange(vals: seq<real>): Result<(real, real)> {
    InterquartileRange(vals, WeakOutlier)
  }

  /** InterquartileStrongOutlierRange. */
  function StrongRange(vals: seq<real>): Result<(real, real)> {
    InterquartileRange(vals, StrongOutlier)
  }

  /** The value at a position lies within a band. */
  predicate InBand(band: (real, real), x: real) {
    band.0 <= x <= band.1
  }

  /**
   * For a multiplier of at least 1 (both the weak and the strong one) the
   * band is never inverted and holds both quartile values, even when the
   * unsorted list puts the larger value first; so the listings whose prices
   * sit at the quartile positions are never outliers.
   */
  lemma BandHoldsQuartiles(vals: seq<real>, multiplier: real)
    requires |vals| > 0 && multiplier >= 1.0
    ensures var band := Band(vals, multiplier);
      && band.0 <= band.1
      && InBand(band, vals[FirstQuartileIndex(|vals|)])
      && InBand(band, vals[ThirdQuartileIndex(|vals|)])
  {
    var q := Quartiles(vals);
    StretchMonotone(q, 1.0, multiplier);
  }

  /** A multiplier below 1 does not have that guarantee: with the larger
      quartile first and no stretch at all the band is inverted. */
  lemma ZeroMultiplierInverts(vals: seq<real>)
    requires vals == [1.0, 9.0, 5.0, 2.0]
    ensures Band(vals, 0.0) == (9.0, 2.0)
  {
    assert FirstQuartileIndex(4) == 1 && ThirdQuartileIndex(4) == 3;
  }

  /** A larger multiplier gives a wider band: whatever the weak band admits,
      the strong band admits. */
  lemma BandWidens(vals: seq<real>, m1: real, m2: real, x: real)
    requires |vals| > 0 && m1 <= m2
    requires InBand(Band(vals, m1), x)
    ensures InBand(Band(vals, m2), x)
  {
    StretchMonotone(Quartiles(vals), m1, m2);
  }

  /** The strong band admits everything the weak band admits. */
  lemma StrongBandContainsWeak(vals: seq<real>, x: real)
    requires WeakRange(vals).Ok? && InBand(WeakRange(vals).value, x)
    ensures StrongRange(vals).Ok? && InBand(StrongRange(vals).value, x)
  {
    BandWidens(vals, WeakOutlier, StrongOutlier, x);
  }

  /** When both quartiles coincide the band collapses to that single value. */
  lemma EqualQuartilesBand(vals: seq<real>, multiplier: real, x: real)
    requires |vals| > 0
    requires vals[FirstQuartileIndex(|vals|)] == vals[ThirdQuartileIndex(|vals|)]
    ensures InBand(Band(vals, multiplier), x) <==> x == vals[FirstQuartileIndex(|vals|)]
  {
    QuartileIndicesInRange(|vals|);
  }

  /** The quartiles are read where they stand: reordering the list can move
      the band. [1, 9, 5, 2] gives (-1.5, 12.5) weakly, its sorted order
      [1, 2, 5, 9] gives (-8.5, 19.5). */
  lemma UnsortedInputExample(vals: seq<real>, sorted: seq<real>)
    requires vals == [1.0, 9.0, 5.0, 2.0] && sorted == [1.0, 2.0, 5.0, 9.0]
    ensures WeakRange(vals) == Ok((-1.5, 12.5))
    ensures WeakRange(sorted) == Ok((-8.5, 19.5))
  {
    assert FirstQuartileIndex(4) == 1 && ThirdQuartileIndex(4) == 3;
  }

  /** The outlier example of the statistics reference: [1, 2, 2, 3, 3, 4, 5,
      5, 9] has weak band (-2.5, 9.5). */
  lemma WeakRangeExample(vals: seq<real>)
    requires vals == [1.0, 2.0, 2.0, 3.0, 3.0, 4.0, 5.0, 5.0, 9.0]
    ensures WeakRange(vals) == Ok((-2.5, 9.5))
  {
    assert FirstQuartileIndex(9) == 2 && ThirdQuartileIndex(9) == 6;
  }
}
