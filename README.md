# Itinerary planner of the AI Tour Guide, in Dafny

This project models the planning core of the AI Tour Guide app (`app.py`). It
covers these parts:

- **Travel time.** The time between two places is the distance over an average speed of 30 km/h. It is never less than a quarter hour.
- **Scoring.** A POI gets 10 points when it is tagged with the chosen travel style. It also gets `max(0, 5 - 2 * duration)` points for being a short visit.
- **Day re-stamping.** The visits of a day are laid out one after another from the day start. Each visit lasts its duration. The next one starts after a 30-minute buffer plus the travel time. Times are shown as `HH:MM`.
- **Generation.** First the catalog is ranked by score. Then every day of the trip is filled greedily from the hotel (or from the catalog's mean position). At each step the day takes the first candidate that still fits the day's hour budget. Candidates are ordered by score, then by distance. The chosen POI's name is removed from the pool.
- **Edits.** In the day view a traveller can move an activity up or down, or remove it. After each edit the day is re-stamped.

Distances are an abstract function `Distance = (Coord, Coord) -> real`. Times
are real numbers of hours since midnight of the day the start time was read
on.

Modules:

- `Types`: POIs, coordinates and the one-hour default duration.
- `Travel`: travel time.
- `Scoring`: the score.
- `Clock`: the `HH:MM` display.
- `Scheduler`: `recompute_day_times`.
- `Selection`: ranking, the centre, first-fit choice and removal by name.
- `Generator`: `generate_itinerary`. The spec functions are `FillDay` and `Plan`. The methods are `GenerateItinerary`, `FillDays` and `FillOneDay`.
- `DayEdits`: the up, down and remove buttons, as methods of the class `TripPlan`.

## Model

| member | source | states |
|---|---|---|
| Travel.TravelTimeHours | app.py:65-67 | Travel takes at least 0.25 h. It is exactly distance / speed once that reaches 0.25 h, and exactly 0.25 h below that. |
| Travel.TravelTimeLinearAboveFloor | app.py:67 | Above the floor, two travel times differ by the difference of the distances over the speed. |
| Travel.TravelTimeMonotone | app.py:67 | A longer distance never takes less time. |
| Scoring.Score | app.py:69-72 | The score is never negative. For a non-negative duration it reaches the style bonus exactly when the style is among the tags, and it is at most bonus + 5. From a 2.5 h duration on, the short-visit term is 0. Below that it is 5 - 2 * duration. |
| Scoring.StyleTagAddsBonus | app.py:70 | Tagging a POI with the travel style adds exactly 10 to its score. |
| Scoring.ShorterVisitScoresNoLower | app.py:71 | With the same tags, a shorter visit never scores lower. |
| Clock.MinuteOfDay | app.py:85-86 | The displayed minute of a cursor always lies within one day (0 to 1439). |
| Clock.FormatClock | app.py:85-86 | The display is five characters with a colon in the middle. Reading it back gives the cursor's minute of the day. |
| Clock.ParseClock | app.py:76 | A start time that is read successfully is a minute within one day. |
| Clock.FormatParsedClock | app.py:76-85 | Formatting a start time that was read from canonical `HH:MM` gives the same text back. So the first visit shows the configured start. |
| Clock.FormatWrapsAtMidnight | app.py:85-86 | A cursor one day later shows the same time: the display drops the date. |
| Scheduler.Timeline | app.py:76-88 | The timeline has one slot per POI. The first starts at the day start. Each ends its duration after it starts. Each next start is the previous end + 0.5 h + the travel time between the two POIs. |
| Scheduler.RestampIsStable | app.py:84-87 | Stamping only adds times: the POIs and their order are kept. Re-stamping a stamped day changes nothing. |
| Scheduler.TimelineMovesForward | app.py:79-88 | For non-negative durations, the j-th start is at least the i-th end + 0.75 h per step between them. |
| Scheduler.TimelineStartsAfterDayStart | app.py:76-88 | For non-negative durations, the j-th visit starts at least 0.75 h per earlier visit after the day start. |
| Scheduler.RecomputeDayTimes | app.py:74-90 | The loop returns the day stamped by the timeline. The list keeps its length and the same POI at every position. The first entry starts at the day start. |
| Selection.InsertByScore | app.py:97 | Inserting into a score-descending list keeps it descending and adds exactly that POI. |
| Selection.SortByScore | app.py:97 | The ranked pool is a permutation of the catalog, ordered by score from highest to lowest. |
| Selection.InsertByScoreKeepsTies | app.py:97 | An inserted POI goes ahead of every element of equal score, so the ones scoring the same keep their order behind it. |
| Selection.SortByScoreIsStable | app.py:97 | The ranking is stable: for every score value, the POIs with that score appear in the same order as in the catalog. |
| Selection.Center | app.py:99-100 | When a stay coordinate is given, it is the start point of every day. |
| Selection.CenterWithinBox | app.py:99-100 | Without a stay coordinate, the mean start point lies within any box that holds every POI. |
| Selection.RankedBeforeOrder | app.py:113-116 | The candidate order is a strict total order on pool positions. |
| Selection.FirstFitExists | app.py:118-124 | If some candidate fits, there is a fitting candidate that every better-ranked candidate fails. |
| Selection.FirstFitUnique | app.py:118-124 | At most one candidate is the first fitting one. |
| Selection.FirstFit | app.py:113-125 | There is no pick exactly when no candidate fits the budget. Otherwise the pick fits and every better-ranked candidate does not. |
| Selection.PickFirstFitting | app.py:113-125 | The scan returns nothing exactly when nothing fits. Otherwise it returns the first fitting candidate in ranked order. |
| Selection.RemoveName | app.py:131 | The new pool holds exactly the old members with a different name. It never grows. It shrinks when the name was present. |
| Selection.RemoveNameAppend | app.py:131 | Removing a name from two joined lists is removing it from each and joining the results, so the kept POIs keep their pool order. |
| Generator.FillDayStep | app.py:109-131 | When a candidate fits, the day takes the first fitting one. The day's time grows by the travel plus the visit. The cursor moves to the pick, and the pick's name leaves the pool. |
| Generator.FillDayHalts | app.py:125 | When nothing fits, the day ends with no further pick and the pool stays untouched. |
| Generator.FillDayDrawsFromPool | app.py:109-131 | A day's picks and the pool left after it come from the pool. Together they are no larger than the pool. |
| Generator.FillDayNamesDistinct | app.py:128-131 | A day never picks a name twice. No POI left in the pool shares a name with a pick. |
| Generator.FillDayWithinBudget | app.py:106-130 | The time used is the start time plus the picks' travel and visit hours. A day with picks stays within the hour budget. The cursor ends at the last pick. |
| Generator.FillDayStopsWhenNothingFits | app.py:109-125 | When a day ends, no POI left in the pool fits the remaining budget from where the day stands. This includes the empty pool. |
| Generator.Plan | app.py:103-105 | The plan has exactly `days` days, or none when `days` is not positive. |
| Generator.PlanDrawsFromPool | app.py:102-131 | Every planned POI comes from the ranked pool. |
| Generator.PlanNamesDistinct | app.py:105-131 | No name appears twice anywhere in the trip. |
| Generator.PlanKeepsBudget | app.py:105-129 | Every non-empty day, visited from the centre, stays within the day budget. |
| Generator.TightBudgetLeavesDaysEmpty | app.py:118-125 | If every POI needs more than the budget even with the minimum transfer, every day stays empty. |
| Generator.EmptyDays | app.py:103 | The initial itinerary has exactly the keys 1..days, each with an empty day. |
| Generator.ItineraryKeepsPlan | app.py:97-133 | Any itinerary whose days hold the plan's POIs has the same guarantees. Every entry comes from the catalog, names are unique, and each day keeps the budget. |
| Generator.FillOneDay | app.py:106-131 | The inner loop returns the day's picks and the pool left over, exactly as the greedy day fill defines them. |
| Generator.FillDays | app.py:103-133 | The outer loop returns exactly the keys 1..days. Day d is the d-th planned day, stamped from the day start. |
| Generator.GenerateItinerary | app.py:92-135 | The generator returns exactly the keys 1..days. Each day is the greedy plan stamped from the start time. Every scheduled POI comes from the catalog, and no name appears twice. Every non-empty day keeps the hour budget. |
| Generator.StampedPlanProperties | app.py:92-135 | Stamping the planned days keeps the catalog origin, the unique names and the budget. |
| DayEdits.SwapAdjacent | app.py:215-222 | A swap exchanges exactly the two neighbours and leaves every other position alone. The list stays a permutation. |
| DayEdits.RemoveAt | app.py:226 | Deleting index idx keeps what came before it, moves what came after it forward by one, and loses exactly that element. |
| DayEdits.SwapTwiceRestores | app.py:215-223 | Moving an activity down and then moving it back up restores the day. |
| DayEdits.RearrangedDayKeepsNamesUnique | app.py:215-228 | Rebuilding a day from its own POIs, each used at most once, keeps every name in the trip unique. |
| DayEdits.SwapKeepsNamesUnique | app.py:215-223 | A re-stamped swap keeps every name in the trip unique. |
| DayEdits.RemoveKeepsNamesUnique | app.py:225-228 | A re-stamped removal keeps every name in the trip unique. |
| DayEdits.TripPlan.constructor | app.py:186 | The held itinerary starts as the generated one, with unique names. |
| DayEdits.TripPlan.MoveUp | app.py:215-218 | On the first position nothing changes. Otherwise only the selected day changes: it becomes the day with idx - 1 and idx swapped, re-stamped. Names stay unique. |
| DayEdits.TripPlan.MoveDown | app.py:220-223 | On the last position nothing changes. Otherwise only the selected day changes: it becomes the day with idx and idx + 1 swapped, re-stamped. Names stay unique. |
| DayEdits.TripPlan.Remove | app.py:225-228 | Only the selected day changes: it becomes the day without position idx, re-stamped. Names stay unique. |

## Left out

- **Haversine.** The great-circle formula (`app.py:57-63`) is trigonometry. It is an abstract `Distance` function, and no property depends on its shape.
- **Time text.** The start-time text is read with `strptime` (`app.py:76`); the model takes the start as real hours. `timedelta`'s rounding to microseconds is not modelled.
- **Entries.** An entry holds the start and end cursors. Its `HH:MM` text is derived from them by `Clock.FormatClock`. The other fields of the copied dictionary (`app.py:84`) are the POI itself.
- **Re-stamping.** `Scheduler.RecomputeDayTimes` takes the POIs of a day, not its stamped entries. The program overwrites the old stamps, so nothing of them survives.
- **Candidate ranking.** The candidates are not built into a list and sorted (`app.py:113-116`). The model selects the least-ranked fitting candidate under the same order: score, then distance, then pool position, which matches Python's stable sort. Distances are compared as exact reals.
- Clock.ParseClock: reads only the canonical two-digit `HH:MM` form. `strptime` with `%H:%M` also accepts one-digit fields such as `9:00` or `09:5`; those texts return no time here. Reading the sidebar's text is outside the planner core, which works from the start as real hours.
- Travel.TravelTimeHours: requires a non-zero speed, because the program divides by it. Every caller uses 30 km/h.
- Selection.Center: when no stay coordinate is given, the pool must be non-empty, because the program divides by its size. That it is a mean is stated only through `Selection.CenterWithinBox`.
- Generator.GenerateItinerary: has the same requirement as `Selection.Center`. The program's own crash on an empty catalog without a stay coordinate is not modelled.
- **Loop split.** The outer and inner loops of `generate_itinerary` are the methods `Generator.FillDays` and `Generator.FillOneDay`.
- **Numbers.** The arithmetic is exact real arithmetic, not floating point.
- **UI.** The Streamlit widgets, theming, map, sidebar parameters, session state handling, the POI catalog (`Pois.py`) and the export buttons are outside the planner core. So is resetting the selected day when it is missing (`app.py:190-191`). For the edits, the selected day and the start time from the sidebar are parameters. The list the buttons mutate in place is replaced by the re-stamped list in the same step. So the model updates the map entry by value, and aliasing between the view and the stored list is not modelled.
