/** Relevance of a POI for the chosen travel style. */
module Scoring {
  import opened Types

  /** Bonus for a POI tagged with the travel style. */
  const StyleBonus: real := 10.0

  /** Score of `poi` for `travelStyle`: the style bonus when the style is
      among the tags, plus a short-visit term `max(0, 5 - 2 * duration)`. */
  function Score(poi: Poi, travelStyle: string): (score: real)
    ensures score >= 0.0
    ensures poi.Duration() >= 0.0 ==> (score >= StyleBonus <==> travelStyle in poi.tags)
    ensures poi.Duration() >= 0.0 ==> score <= StyleBonus + 5.0
    ensures poi.Duration() >= 2.5 ==> score == if travelStyle in poi.tags then StyleBonus else 0.0
    ensures 0.0 <= poi.Duration() <= 2.5 ==>
      score == (if travelStyle in poi.tags then StyleBonus else 0.0) + 5.0 - 2.0 * poi.Duration()
  {
    var bonus := if travelStyle in poi.tags then StyleBonus else 0.0;
    var shortVisit := 5.0 - poi.Duration() * 2.0;
    bonus + (if shortVisit > 0.0 then shortVisit else 0.0)
  }

  /** Tagging a POI with the style raises its score by exactly the bonus. */
  lemma StyleTagAddsBonus(poi: Poi, travelStyle: string, tagged: seq<string>, untagged: seq<string>)
    requires travelStyle in tagged && travelStyle !in untagged
    ensures Score(poi.(tags := tagged), travelStyle) == Score(poi.(tags := untagged), travelStyle) + StyleBonus
  {
  }

  /** With the same tags, a shorter visit never scores lower. */
  lemma ShorterVisitScoresNoLower(poi: Poi, travelStyle: string, shorter: real, longer: real)
    requires shorter <= longer
    ensures Score(poi.(duration := Some(shorter)), travelStyle) >= Score(poi.(duration := Some(longer)), travelStyle)
  {
  }
}
