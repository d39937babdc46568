/**
 * `getRecommendation` of the `/submit` handler: a score string is read with
 * `parseFloat` and mapped to one of five maturity labels by inclusive lower
 * bounds, or to a sentinel when it does not parse.
 */
module Maturity {
  import opened Wrappers
  import opened JsNumber

  const InvalidScore: string := "Score invalide"

  /** Inclusive lower bounds of levels 2, 3, 4 and 5. */
  const LowerBounds: seq<real> := [1.5, 2.5, 3.5, 4.5]

  predicate IsLevel(k: int) {
    1 <= k <= 5
  }

  function Level(v: real): (k: int)
    ensures IsLevel(k)
  {
    if v >= 4.5 then 5
    else if v >= 3.5 then 4
    else if v >= 2.5 then 3
    else if v >= 1.5 then 2
    else 1
  }

  function LevelLabel(k: int): string
    requires IsLevel(k)
  {
    match k
    case 5 => "Niveau 5/5 : Optimized"
    case 4 => "Niveau 4/5 : Quantitatively Managed / Measured"
    case 3 => "Niveau 3/5 : Defined"
    case 2 => "Niveau 2/5 : Managed"
    case 1 => "Niveau 1/5 : Initial"
  }

  /** The recommendation for an already parsed score; `None` is NaN. */
  function RecommendationOf(s: Option<real>): (r: string)
    ensures r == InvalidScore <==> s.None?
    ensures s.Some? ==> r == LevelLabel(Level(s.value))
  {
    if s.None? then InvalidScore
    else
      LabelsDistinct(Level(s.value), Level(s.value));
      LevelLabel(Level(s.value))
  }

  function GetRecommendation(score: string): (r: string)
    ensures r == InvalidScore <==> ParseFloat(score).None?
    ensures ParseFloat(score).Some? ==> exists k :: IsLevel(k) && r == LevelLabel(k)
  {
    RecommendationOf(ParseFloat(score))
  }

  /** How many of the bounds are at most v. */
  function BoundsReached(bounds: seq<real>, v: real): (n: nat)
    ensures n <= |bounds|
  {
    if bounds == [] then 0
    else (if bounds[0] <= v then 1 else 0) + BoundsReached(bounds[1..], v)
  }

  /** The level is one more than the number of lower bounds the score reaches. */
  lemma LevelCountsBounds(v: real)
    ensures Level(v) == 1 + BoundsReached(LowerBounds, v)
  {
    var b := LowerBounds;
    assert b[1..][1..][1..][1..] == [];
    assert BoundsReached(b[1..][1..][1..], v) == if 4.5 <= v then 1 else 0;
    assert BoundsReached(b[1..][1..], v) == (if 3.5 <= v then 1 else 0) + (if 4.5 <= v then 1 else 0);
  }

  lemma {:induction false} BoundsReachedMonotone(bounds: seq<real>, v: real, w: real)
    requires v <= w
    ensures BoundsReached(bounds, v) <= BoundsReached(bounds, w)
    decreases |bounds|
  {
    if bounds != [] {
      BoundsReachedMonotone(bounds[1..], v, w);
    }
  }

  /** A higher score never gives a lower level. */
  lemma LevelMonotone(v: real, w: real)
    requires v <= w
    ensures Level(v) <= Level(w)
  {
    LevelCountsBounds(v);
    LevelCountsBounds(w);
    BoundsReachedMonotone(LowerBounds, v, w);
  }

  lemma LabelsDistinct(j: int, k: int)
    requires IsLevel(j) && IsLevel(k)
    ensures LevelLabel(j) == LevelLabel(k) <==> j == k
    ensures LevelLabel(k) != InvalidScore
  {
  }

  /**
   * The threshold table, both ways: for a score that parses to v, each of
   * the five labels is returned exactly on its interval.
   */
  lemma RecommendationTable(score: string, v: real)
    requires ParseFloat(score) == Some(v)
    ensures GetRecommendation(score) == LevelLabel(5) <==> 4.5 <= v
    ensures GetRecommendation(score) == LevelLabel(4) <==> 3.5 <= v < 4.5
    ensures GetRecommendation(score) == LevelLabel(3) <==> 2.5 <= v < 3.5
    ensures GetRecommendation(score) == LevelLabel(2) <==> 1.5 <= v < 2.5
    ensures GetRecommendation(score) == LevelLabel(1) <==> v < 1.5
  {
    forall j | IsLevel(j) ensures LevelLabel(j) == LevelLabel(Level(v)) <==> j == Level(v) {
      LabelsDistinct(j, Level(v));
    }
  }
}
