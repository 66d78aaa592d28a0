/**
 * The three bucketing functions that derive the cube's range dimensions from
 * alcohol, pH and density. Each splits the reals into three half-open
 * intervals; a value exactly on a threshold belongs to the upper interval.
 */
module Classifiers {

  const AlcoholLow := "Low (< 9.5)"
  const AlcoholMedium := "Medium (9.5-11.5)"
  const AlcoholHigh := "High (> 11.5)"

  const PHVeryAcidic := "Very Acidic (< 3.2)"
  const PHAcidic := "Acidic (3.2-3.4)"
  const PHLessAcidic := "Less Acidic (> 3.4)"

  const DensityLight := "Light (< 0.996)"
  const DensityMedium := "Medium (0.996-0.998)"
  const DensityHeavy := "Heavy (> 0.998)"

  /** Index (0, 1 or 2) of the interval of `x` among (-inf, t1), [t1, t2), [t2, +inf). */
  function Band(x: real, t1: real, t2: real): (b: nat)
    requires t1 < t2
    ensures b <= 2
    ensures b == 0 <==> x < t1
    ensures b == 1 <==> t1 <= x < t2
    ensures b == 2 <==> t2 <= x
  {
    if x < t1 then 0 else if x < t2 then 1 else 2
  }

  function CategorizeAlcohol(alcohol: real): (category: string)
    ensures category == [AlcoholLow, AlcoholMedium, AlcoholHigh][Band(alcohol, 9.5, 11.5)]
    ensures category == AlcoholLow <==> alcohol < 9.5
    ensures category == AlcoholMedium <==> 9.5 <= alcohol < 11.5
    ensures category == AlcoholHigh <==> 11.5 <= alcohol
  {
    if alcohol < 9.5 then AlcoholLow
    else if alcohol < 11.5 then AlcoholMedium
    else AlcoholHigh
  }

  function CategorizePH(pH: real): (category: string)
    ensures category == [PHVeryAcidic, PHAcidic, PHLessAcidic][Band(pH, 3.2, 3.4)]
    ensures category == PHVeryAcidic <==> pH < 3.2
    ensures category == PHAcidic <==> 3.2 <= pH < 3.4
    ensures category == PHLessAcidic <==> 3.4 <= pH
  {
    if pH < 3.2 then PHVeryAcidic
    else if pH < 3.4 then PHAcidic
    else PHLessAcidic
  }

  function CategorizeDensity(density: real): (category: string)
    ensures category == [DensityLight, DensityMedium, DensityHeavy][Band(density, 0.996, 0.998)]
    ensures category == DensityLight <==> density < 0.996
    ensures category == DensityMedium <==> 0.996 <= density < 0.998
    ensures category == DensityHeavy <==> 0.998 <= density
  {
    if density < 0.996 then DensityLight
    else if density < 0.998 then DensityMedium
    else DensityHeavy
  }

  /** The boundary cases: a threshold value goes to the upper bucket. */
  lemma AlcoholBoundaries()
    ensures CategorizeAlcohol(9.4999) == AlcoholLow
    ensures CategorizeAlcohol(9.5) == AlcoholMedium
    ensures CategorizeAlcohol(11.5) == AlcoholHigh
  {
  }

  lemma PHBoundaries()
    ensures CategorizePH(3.2) == PHAcidic
    ensures CategorizePH(3.4) == PHLessAcidic
  {
  }

  lemma DensityBoundaries()
    ensures CategorizeDensity(0.996) == DensityMedium
    ensures CategorizeDensity(0.998) == DensityHeavy
  {
  }
}
