/** The day scheduler: stamps an ordered list of POIs with start and end
    times, walking a time cursor from the day's start. */
module Scheduler {
  import opened Types
  import opened Travel
  import opened Clock

  /** Time kept free after every visit before travelling on (30 minutes). */
  const BufferHours: real := 0.5

  /** The cursor values of one visit, in hours. */
  datatype Slot = Slot(start: real, end: real)

  /** A copy of a POI with its start and end cursor added; the texts shown
      as its start and end time are the "HH:MM" renderings of the cursor. */
  datatype Entry = Entry(poi: Poi, start: real, end: real)
  {
    function StartTime(): string {
      FormatClock(start)
    }

    function EndTime(): string {
      FormatClock(end)
    }
  }

  /** The POIs behind a day's entries, in visiting order. */
  function PoisOf(entries: seq<Entry>): seq<Poi> {
    seq(|entries|, i requires 0 <= i < |entries| => entries[i].poi)
  }

  /** No two positions anywhere in the itinerary carry the same POI name. */
  predicate UniqueNames(itinerary: map<int, seq<Entry>>) {
    forall d1, i, d2, j ::
      d1 in itinerary && d2 in itinerary && 0 <= i < |itinerary[d1]| && 0 <= j < |itinerary[d2]| &&
      (d1 != d2 || i != j) ==>
        itinerary[d1][i].poi.name != itinerary[d2][j].poi.name
  }

  /** The visits' cursor values for `pois` taken in order from `dayStart`:
      the first visit starts at the day start, every visit ends its duration
      after it starts, and every later visit starts after the previous end,
      the buffer, and the travel from the previous POI. */
  function Timeline(dist: Distance, pois: seq<Poi>, dayStart: real): (slots: seq<Slot>)
    ensures |slots| == |pois|
    ensures |pois| > 0 ==> slots[0].start == dayStart
    ensures forall i :: 0 <= i < |pois| ==> slots[i].end == slots[i].start + pois[i].Duration()
    ensures forall i, j :: 0 <= i && j == i + 1 && j < |pois| ==>
      slots[j].start == slots[i].end + BufferHours + TravelTimeHours(dist, pois[i].Location(), pois[j].Location())
    decreases |pois|
  {
    if pois == [] then []
    else
      var last := |pois| - 1;
      var before := Timeline(dist, pois[..last], dayStart);
      var start :=
        if last == 0 then dayStart
        else before[last - 1].end + BufferHours + TravelTimeHours(dist, pois[last - 1].Location(), pois[last].Location());
      before + [Slot(start, start + pois[last].Duration())]
  }

  /** The stamped copies of `pois`: each keeps its POI and carries its slot. */
  function StampDay(dist: Distance, pois: seq<Poi>, dayStart: real): seq<Entry> {
    var slots := Timeline(dist, pois, dayStart);
    seq(|pois|, i requires 0 <= i < |pois| => Entry(pois[i], slots[i].start, slots[i].end))
  }

  /** Stamping only adds times: the stamped day holds the same POIs in the
      same order, so re-stamping a stamped day changes nothing. */
  lemma RestampIsStable(dist: Distance, pois: seq<Poi>, dayStart: real)
    ensures PoisOf(StampDay(dist, pois, dayStart)) == pois
    ensures StampDay(dist, PoisOf(StampDay(dist, pois, dayStart)), dayStart) == StampDay(dist, pois, dayStart)
  {
    assert PoisOf(StampDay(dist, pois, dayStart)) == pois;
  }

  /** With non-negative durations the cursor only moves forward: every visit
      starts at least 45 minutes per step after the end of any earlier one. */
  lemma {:induction false} TimelineMovesForward(dist: Distance, pois: seq<Poi>, dayStart: real, i: nat, j: nat)
    requires i < j < |pois|
    requires forall k :: 0 <= k < |pois| ==> pois[k].Duration() >= 0.0
    ensures Timeline(dist, pois, dayStart)[j].start
         >= Timeline(dist, pois, dayStart)[i].end + (BufferHours + MinTravelHours) * (j - i) as real
    decreases j - i
  {
    if j > i + 1 {
      TimelineMovesForward(dist, pois, dayStart, i, j - 1);
    }
  }

  /** No visit starts before the day starts; with non-negative durations the
      n-th visit starts at least 45 minutes per earlier visit after it. */
  lemma {:induction false} TimelineStartsAfterDayStart(dist: Distance, pois: seq<Poi>, dayStart: real, j: nat)
    requires j < |pois|
    requires forall k :: 0 <= k < |pois| ==> pois[k].Duration() >= 0.0
    ensures Timeline(dist, pois, dayStart)[j].start >= dayStart + (BufferHours + MinTravelHours) * j as real
  {
    if j > 0 {
      TimelineStartsAfterDayStart(dist, pois, dayStart, j - 1);
    }
  }

  /** Stamps `dayActivities` in order from `dayStart`, returning fresh
      copies; the input is a value and is left as it was. */
  method RecomputeDayTimes(dist: Distance, dayActivities: seq<Poi>, dayStart: real) returns (newList: seq<Entry>)
    ensures newList == StampDay(dist, dayActivities, dayStart)
    ensures |newList| == |dayActivities|
    ensures forall i :: 0 <= i < |newList| ==> newList[i].poi == dayActivities[i]
    ensures |newList| > 0 ==> newList[0].start == dayStart
  {
    ghost var slots := Timeline(dist, dayActivities, dayStart);
    newList := [];
    var timeCursor := dayStart;
    var prev: Option<Poi> := None;
    for i := 0 to |dayActivities|
      invariant |newList| == i
      invariant forall k :: 0 <= k < i ==>
        newList[k] == Entry(dayActivities[k], slots[k].start, slots[k].end)
      invariant prev == if i == 0 then None else Some(dayActivities[i - 1])
      invariant i == 0 ==> timeCursor == dayStart
      invariant i > 0 ==> timeCursor == slots[i - 1].end + BufferHours
    {
      var poi := dayActivities[i];
      if prev.Some? {
        timeCursor := timeCursor + TravelTimeHours(dist, prev.value.Location(), poi.Location());
      }
      var startTime := timeCursor;
      var endTime := startTime + poi.Duration();
      newList := newList + [Entry(poi, startTime, endTime)];
      timeCursor := endTime + BufferHours;
      prev := Some(poi);
    }
  }
}
