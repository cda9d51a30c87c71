/** The greedy itinerary generator: fills each day in turn from the pool,
    always taking the first candidate, in candidate order, that still fits
    the day's budget, then stamps every day with the day scheduler. */
module Generator {
  import opened Types
  import opened Travel
  import opened Scheduler
  import opened Selection

  /** The default day budget in hours. */
  const DefaultDayHoursBudget: real := 8.5

  /** Hours a day's picks use when visited in order from `from`: for every
      pick the travel from the previous position plus the visit. */
  function DayCost(dist: Distance, from: Coord, picks: seq<Poi>): real
    decreases |picks|
  {
    if picks == [] then 0.0
    else TravelTimeHours(dist, from, picks[0].Location()) + picks[0].Duration() + DayCost(dist, picks[0].Location(), picks[1..])
  }

  /** The outcome of filling one day: the picks in order, what is left of
      the pool, the hours used and where the day's cursor ends. */
  datatype DayFill = DayFill(picks: seq<Poi>, rest: seq<Poi>, timeUsed: real, cursor: Coord)

  /** Fills one day from `pool`, starting with `timeUsed` hours used at
      `cursor`: while the pool is not empty and some candidate fits, take the
      first fitting candidate, charge its travel and visit, move the cursor
      to it and drop its name from the pool. */
  ghost function FillDay(s: Settings, timeUsed: real, cursor: Coord, pool: seq<Poi>): DayFill
    decreases |pool|
  {
    if pool == [] then DayFill([], [], timeUsed, cursor)
    else
      match FirstFit(s, timeUsed, cursor, pool)
      case None => DayFill([], pool, timeUsed, cursor)
      case Some(k) =>
        var next := FillDay(s, Charged(s, timeUsed, cursor, pool[k]), pool[k].Location(), RemoveName(pool, pool[k].name));
        next.(picks := [pool[k]] + next.picks)
  }

  /** Every member of `part` is a member of `pool`. */
  predicate DrawnFrom(part: seq<Poi>, pool: seq<Poi>) {
    forall p :: p in part ==> p in pool
  }

  /** No name of `picks` is carried by a member of `rest`. */
  predicate NamesApart(picks: seq<Poi>, rest: seq<Poi>) {
    forall i, p :: 0 <= i < |picks| && p in rest ==> p.name != picks[i].name
  }

  /** No candidate of `pool` fits from where the day stands. */
  predicate NothingFits(s: Settings, timeUsed: real, cursor: Coord, pool: seq<Poi>) {
    forall j :: 0 <= j < |pool| ==> !Fits(s, timeUsed, cursor, pool[j])
  }

  /** One step of a day: when a candidate fits, the day takes the first
      fitting one and goes on from it with its name gone from the pool. */
  lemma FillDayStep(s: Settings, timeUsed: real, cursor: Coord, pool: seq<Poi>, k: nat)
    requires FirstFit(s, timeUsed, cursor, pool) == Some(k)
    ensures k < |pool| && Fits(s, timeUsed, cursor, pool[k])
    ensures FillDay(s, timeUsed, cursor, pool).picks
         == [pool[k]] + FillDay(s, Charged(s, timeUsed, cursor, pool[k]), pool[k].Location(), RemoveName(pool, pool[k].name)).picks
    ensures FillDay(s, timeUsed, cursor, pool).rest
         == FillDay(s, Charged(s, timeUsed, cursor, pool[k]), pool[k].Location(), RemoveName(pool, pool[k].name)).rest
    ensures FillDay(s, timeUsed, cursor, pool).timeUsed
         == FillDay(s, Charged(s, timeUsed, cursor, pool[k]), pool[k].Location(), RemoveName(pool, pool[k].name)).timeUsed
    ensures FillDay(s, timeUsed, cursor, pool).cursor
         == FillDay(s, Charged(s, timeUsed, cursor, pool[k]), pool[k].Location(), RemoveName(pool, pool[k].name)).cursor
  {
  }

  /** A day ends at once, keeping the whole pool, when nothing fits. */
  lemma FillDayHalts(s: Settings, timeUsed: real, cursor: Coord, pool: seq<Poi>)
    requires FirstFit(s, timeUsed, cursor, pool).None?
    ensures FillDay(s, timeUsed, cursor, pool) == DayFill([], pool, timeUsed, cursor)
  {
  }

  /** A day draws only from the pool: its picks and what it leaves are pool
      members, and every pick removes at least itself from the pool. */
  lemma {:induction false} FillDayDrawsFromPool(s: Settings, timeUsed: real, cursor: Coord, pool: seq<Poi>)
    ensures DrawnFrom(FillDay(s, timeUsed, cursor, pool).picks, pool)
    ensures DrawnFrom(FillDay(s, timeUsed, cursor, pool).rest, pool)
    ensures |FillDay(s, timeUsed, cursor, pool).picks| + |FillDay(s, timeUsed, cursor, pool).rest| <= |pool|
    decreases |pool|
  {
    var choice := FirstFit(s, timeUsed, cursor, pool);
    if choice.None? {
      FillDayHalts(s, timeUsed, cursor, pool);
    } else {
      var k := choice.value;
      FillDayStep(s, timeUsed, cursor, pool, k);
      var picked := pool[k];
      var rest := RemoveName(pool, picked.name);
      FillDayDrawsFromPool(s, Charged(s, timeUsed, cursor, picked), picked.Location(), rest);
    }
  }

  /** No name is picked twice in a day, and no name left in the pool was
      picked. */
  lemma {:induction false} FillDayNamesDistinct(s: Settings, timeUsed: real, cursor: Coord, pool: seq<Poi>)
    ensures DistinctNames(FillDay(s, timeUsed, cursor, pool).picks)
    ensures NamesApart(FillDay(s, timeUsed, cursor, pool).picks, FillDay(s, timeUsed, cursor, pool).rest)
    decreases |pool|
  {
    var choice := FirstFit(s, timeUsed, cursor, pool);
    if choice.None? {
      FillDayHalts(s, timeUsed, cursor, pool);
    } else {
      var k := choice.value;
      FillDayStep(s, timeUsed, cursor, pool, k);
      var picked := pool[k];
      var rest := RemoveName(pool, picked.name);
      var next := FillDay(s, Charged(s, timeUsed, cursor, picked), picked.Location(), rest);
      FillDayDrawsFromPool(s, Charged(s, timeUsed, cursor, picked), picked.Location(), rest);
      FillDayNamesDistinct(s, Charged(s, timeUsed, cursor, picked), picked.Location(), rest);
      PrependPick(picked, rest, next.picks, next.rest);
    }
  }

  /** Putting in front of a day's later picks a POI whose name the pool
      they were drawn from no longer carries keeps the names distinct and
      apart from what is left. */
  lemma PrependPick(picked: Poi, pool: seq<Poi>, picks: seq<Poi>, rest: seq<Poi>)
    requires forall p :: p in pool ==> p.name != picked.name
    requires DrawnFrom(picks, pool) && DrawnFrom(rest, pool)
    requires DistinctNames(picks) && NamesApart(picks, rest)
    ensures DistinctNames([picked] + picks) && NamesApart([picked] + picks, rest)
  {
    var all := [picked] + picks;
    forall i, j | 0 <= i < j < |all| ensures all[i].name != all[j].name {
      assert all[j] == picks[j - 1];
      assert picks[j - 1] in picks;
      if i > 0 {
        assert all[i] == picks[i - 1];
      }
    }
    forall i, p | 0 <= i < |all| && p in rest ensures p.name != all[i].name {
      if i > 0 {
        assert all[i] == picks[i - 1];
      }
    }
  }

  /** A day's picks keep within its budget: the hours used at the end are
      the hours used at the start plus the day's travel and visits, and they
      do not exceed the budget once anything was picked. The day ends at its
      last pick. */
  lemma {:induction false} FillDayWithinBudget(s: Settings, timeUsed: real, cursor: Coord, pool: seq<Poi>)
    ensures FillDay(s, timeUsed, cursor, pool).timeUsed == timeUsed + DayCost(s.dist, cursor, FillDay(s, timeUsed, cursor, pool).picks)
    ensures FillDay(s, timeUsed, cursor, pool).picks != [] ==> FillDay(s, timeUsed, cursor, pool).timeUsed <= s.dayHoursBudget
    ensures FillDay(s, timeUsed, cursor, pool).cursor
         == if FillDay(s, timeUsed, cursor, pool).picks == [] then cursor
            else FillDay(s, timeUsed, cursor, pool).picks[|FillDay(s, timeUsed, cursor, pool).picks| - 1].Location()
    decreases |pool|
  {
    var choice := FirstFit(s, timeUsed, cursor, pool);
    if choice.None? {
      FillDayHalts(s, timeUsed, cursor, pool);
    } else {
      var k := choice.value;
      FillDayStep(s, timeUsed, cursor, pool, k);
      var picked := pool[k];
      var used := Charged(s, timeUsed, cursor, picked);
      var next := FillDay(s, used, picked.Location(), RemoveName(pool, picked.name));
      FillDayWithinBudget(s, used, picked.Location(), RemoveName(pool, picked.name));
      assert ([picked] + next.picks)[1..] == next.picks;
    }
  }

  /** A day ends exactly when the pool is empty or no candidate left fits
      from where the day stands. */
  lemma {:induction false} FillDayStopsWhenNothingFits(s: Settings, timeUsed: real, cursor: Coord, pool: seq<Poi>)
    ensures NothingFits(s, FillDay(s, timeUsed, cursor, pool).timeUsed, FillDay(s, timeUsed, cursor, pool).cursor,
                        FillDay(s, timeUsed, cursor, pool).rest)
    decreases |pool|
  {
    var choice := FirstFit(s, timeUsed, cursor, pool);
    if choice.None? {
      FillDayHalts(s, timeUsed, cursor, pool);
    } else {
      var k := choice.value;
      FillDayStep(s, timeUsed, cursor, pool, k);
      var picked := pool[k];
      FillDayStopsWhenNothingFits(s, Charged(s, timeUsed, cursor, picked), picked.Location(), RemoveName(pool, picked.name));
    }
  }

  /** The picks of `days` days filled one after another, each from what the
      earlier days left and each starting at `center` with nothing used. */
  ghost function Plan(s: Settings, center: Coord, pool: seq<Poi>, days: int): (plan: seq<seq<Poi>>)
    ensures |plan| == if days <= 0 then 0 else days
    decreases days
  {
    if days <= 0 then []
    else
      var fill := FillDay(s, 0.0, center, pool);
      [fill.picks] + Plan(s, center, fill.rest, days - 1)
  }

  /** Every POI of `plan` is a member of `pool`. */
  predicate PlanDrawnFrom(plan: seq<seq<Poi>>, pool: seq<Poi>) {
    forall d, i :: 0 <= d < |plan| && 0 <= i < |plan[d]| ==> plan[d][i] in pool
  }

  /** No two positions anywhere in `plan` carry the same name. */
  predicate PlanNamesUnique(plan: seq<seq<Poi>>) {
    forall d1, i, d2, j ::
      0 <= d1 < |plan| && 0 <= d2 < |plan| && 0 <= i < |plan[d1]| && 0 <= j < |plan[d2]| && (d1 != d2 || i != j) ==>
        plan[d1][i].name != plan[d2][j].name
  }

  /** Every non-empty day of `plan`, visited from `center`, keeps within the
      day budget. */
  predicate PlanWithinBudget(s: Settings, center: Coord, plan: seq<seq<Poi>>) {
    forall d :: 0 <= d < |plan| && plan[d] != [] ==> DayCost(s.dist, center, plan[d]) <= s.dayHoursBudget
  }

  /** Every POI of the plan comes from the pool. */
  lemma {:induction false} PlanDrawsFromPool(s: Settings, center: Coord, pool: seq<Poi>, days: int)
    ensures PlanDrawnFrom(Plan(s, center, pool, days), pool)
    decreases days
  {
    if days > 0 {
      var fill := FillDay(s, 0.0, center, pool);
      var later := Plan(s, center, fill.rest, days - 1);
      assert Plan(s, center, pool, days) == [fill.picks] + later;
      assert PlanDrawnFrom([fill.picks] + later, pool) by {
        FillDayDrawsFromPool(s, 0.0, center, pool);
        PlanDrawsFromPool(s, center, fill.rest, days - 1);
        PrependDrawn(fill.picks, fill.rest, later, pool);
      }
    }
  }

  /** A first day drawn from the pool, followed by days drawn from what it
      leaves of the pool, draws the whole plan from the pool. */
  lemma PrependDrawn(picks: seq<Poi>, rest: seq<Poi>, later: seq<seq<Poi>>, pool: seq<Poi>)
    requires DrawnFrom(picks, pool) && DrawnFrom(rest, pool)
    requires PlanDrawnFrom(later, rest)
    ensures PlanDrawnFrom([picks] + later, pool)
  {
    var plan: seq<seq<Poi>> := [picks] + later;
    forall d: int, i: int | 0 <= d < |plan| && 0 <= i < |plan[d]| ensures plan[d][i] in pool {
      if d == 0 {
        assert plan[d][i] in picks;
      } else {
        assert plan[d][i] == later[d - 1][i];
      }
    }
  }

  /** No name is scheduled twice anywhere in the plan. */
  lemma {:induction false} PlanNamesDistinct(s: Settings, center: Coord, pool: seq<Poi>, days: int)
    ensures PlanNamesUnique(Plan(s, center, pool, days))
    decreases days
  {
    if days > 0 {
      var fill := FillDay(s, 0.0, center, pool);
      var later := Plan(s, center, fill.rest, days - 1);
      assert PlanNamesUnique(later) by {
        PlanNamesDistinct(s, center, fill.rest, days - 1);
      }
      PlanDrawsFromPool(s, center, fill.rest, days - 1);
      FillDayNamesDistinct(s, 0.0, center, pool);
      PrependDay(fill.picks, fill.rest, later);
      assert Plan(s, center, pool, days) == [fill.picks] + later;
    }
  }

  /** A first day whose names are distinct and apart from the pool the
      later days draw from keeps the names of the whole plan unique. */
  lemma PrependDay(picks: seq<Poi>, rest: seq<Poi>, later: seq<seq<Poi>>)
    requires DistinctNames(picks) && NamesApart(picks, rest)
    requires PlanDrawnFrom(later, rest) && PlanNamesUnique(later)
    ensures PlanNamesUnique([picks] + later)
  {
    var plan: seq<seq<Poi>> := [picks] + later;
    forall d1: int, i: int, d2: int, j: int |
      0 <= d1 < |plan| && 0 <= d2 < |plan| && 0 <= i < |plan[d1]| && 0 <= j < |plan[d2]| && (d1 != d2 || i != j)
      ensures plan[d1][i].name != plan[d2][j].name
    {
      if d1 == 0 && d2 == 0 {
        if i > j {
          assert picks[j].name != picks[i].name;
        }
      } else if d1 == 0 {
        assert plan[d2][j] == later[d2 - 1][j];
        assert later[d2 - 1][j] in rest;
      } else if d2 == 0 {
        assert plan[d1][i] == later[d1 - 1][i];
        assert later[d1 - 1][i] in rest;
      } else {
        assert plan[d1][i] == later[d1 - 1][i];
        assert plan[d2][j] == later[d2 - 1][j];
      }
    }
  }

  /** Every non-empty day of the plan keeps within the day budget, counting
      travel from the center to the first pick and between picks. */
  lemma {:induction false} PlanKeepsBudget(s: Settings, center: Coord, pool: seq<Poi>, days: int)
    ensures PlanWithinBudget(s, center, Plan(s, center, pool, days))
    decreases days
  {
    if days > 0 {
      var fill := FillDay(s, 0.0, center, pool);
      var later := Plan(s, center, fill.rest, days - 1);
      FillDayWithinBudget(s, 0.0, center, pool);
      PlanKeepsBudget(s, center, fill.rest, days - 1);
      var plan := Plan(s, center, pool, days);
      assert plan == [fill.picks] + later;
      forall d | 0 <= d < |plan| && plan[d] != [] ensures DayCost(s.dist, center, plan[d]) <= s.dayHoursBudget {
        if d > 0 {
          assert plan[d] == later[d - 1];
        }
      }
    }
  }

  /** When no POI's visit plus the shortest transfer fits the budget (an
      empty pool included), every day stays empty. */
  lemma {:induction false} TightBudgetLeavesDaysEmpty(s: Settings, center: Coord, pool: seq<Poi>, days: int)
    requires forall p :: p in pool ==> MinTravelHours + p.Duration() > s.dayHoursBudget
    ensures forall d :: 0 <= d < |Plan(s, center, pool, days)| ==> Plan(s, center, pool, days)[d] == []
    decreases days
  {
    if days > 0 {
      forall j | 0 <= j < |pool| ensures !Fits(s, 0.0, center, pool[j]) {
        assert pool[j] in pool;
      }
      FillDayHalts(s, 0.0, center, pool);
      TightBudgetLeavesDaysEmpty(s, center, pool, days - 1);
      var later := Plan(s, center, pool, days - 1);
      assert Plan(s, center, pool, days) == [[]] + later;
    }
  }

  /** The plan the generator follows for its inputs: the pool ranked by
      score, every day starting at the stay coordinate or the pool's
      centroid. */
  ghost function PlanFor(dist: Distance, cityPois: seq<Poi>, days: int, travelStyle: string,
                         stayCoord: Option<Coord>, dayHoursBudget: real): seq<seq<Poi>>
    requires stayCoord.Some? || |cityPois| > 0
  {
    var pool := SortByScore(cityPois, travelStyle);
    Plan(Settings(dist, travelStyle, dayHoursBudget), Center(stayCoord, pool), pool, days)
  }

  /** The itinerary before any day is filled: days 1 to `days`, each with an
      empty list. */
  function EmptyDays(days: int): (itinerary: map<int, seq<Entry>>)
    ensures forall d :: d in itinerary <==> 1 <= d <= days
    ensures forall d :: d in itinerary ==> itinerary[d] == []
    decreases days
  {
    if days <= 0 then map[] else EmptyDays(days - 1)[days := []]
  }

  /** An itinerary whose days hold the POIs of a plan's days keeps what the
      plan promises: every entry's POI comes from the catalog, no name
      appears twice, and every non-empty day keeps within the budget. */
  lemma ItineraryKeepsPlan(s: Settings, center: Coord, pool: seq<Poi>, cityPois: seq<Poi>, plan: seq<seq<Poi>>,
                           itinerary: map<int, seq<Entry>>)
    requires multiset(pool) == multiset(cityPois)
    requires PlanDrawnFrom(plan, pool) && PlanNamesUnique(plan) && PlanWithinBudget(s, center, plan)
    requires forall d :: d in itinerary ==> 1 <= d <= |plan| && PoisOf(itinerary[d]) == plan[d - 1]
    ensures forall d, i :: d in itinerary && 0 <= i < |itinerary[d]| ==> itinerary[d][i].poi in cityPois
    ensures UniqueNames(itinerary)
    ensures forall d :: d in itinerary && itinerary[d] != [] ==> DayCost(s.dist, center, PoisOf(itinerary[d])) <= s.dayHoursBudget
  {
    forall d, i | d in itinerary && 0 <= i < |itinerary[d]| ensures itinerary[d][i].poi in cityPois {
      assert itinerary[d][i].poi == PoisOf(itinerary[d])[i];
      assert plan[d - 1][i] in multiset(pool);
    }
    forall d1, i, d2, j |
      d1 in itinerary && d2 in itinerary && 0 <= i < |itinerary[d1]| && 0 <= j < |itinerary[d2]| && (d1 != d2 || i != j)
      ensures itinerary[d1][i].poi.name != itinerary[d2][j].poi.name
    {
      assert itinerary[d1][i].poi == PoisOf(itinerary[d1])[i];
      assert itinerary[d2][j].poi == PoisOf(itinerary[d2])[j];
    }
  }

  /** The inner loop of the generator: fills one day from `remaining`,
      starting at `center` with nothing used, and returns the day's picks
      and what is left of the pool. */
  method FillOneDay(s: Settings, center: Coord, pool: seq<Poi>) returns (dayPois: seq<Poi>, remaining: seq<Poi>)
    ensures dayPois == FillDay(s, 0.0, center, pool).picks
    ensures remaining == FillDay(s, 0.0, center, pool).rest
  {
    ghost var dayFill := FillDay(s, 0.0, center, pool);
    remaining := pool;
    var timeUsed := 0.0;
    var cursor := center;
    dayPois := [];
    while remaining != []
      invariant dayPois + FillDay(s, timeUsed, cursor, remaining).picks == dayFill.picks
      invariant FillDay(s, timeUsed, cursor, remaining).rest == dayFill.rest
      decreases |remaining|
    {
      var pick := PickFirstFitting(s, timeUsed, cursor, remaining);
      if pick.None? {
        FillDayHalts(s, timeUsed, cursor, remaining);
        break;
      }
      AdvanceDay(s, timeUsed, cursor, remaining, pick.value, dayPois, dayFill);
      var picked := remaining[pick.value];
      var travelH := TravelTimeHours(s.dist, cursor, picked.Location());
      ghost var charged := Charged(s, timeUsed, cursor, picked);
      dayPois := dayPois + [picked];
      timeUsed := timeUsed + travelH + picked.Duration();
      cursor := picked.Location();
      remaining := RemoveName(remaining, picked.name);
      assert timeUsed == charged;
    }
  }

  /** Taking the first fitting candidate keeps a partly filled day on course
      for the day `target` it started out to be. */
  lemma AdvanceDay(s: Settings, timeUsed: real, cursor: Coord, pool: seq<Poi>, k: nat, dayPois: seq<Poi>, target: DayFill)
    requires FirstFit(s, timeUsed, cursor, pool) == Some(k)
    requires dayPois + FillDay(s, timeUsed, cursor, pool).picks == target.picks
    requires FillDay(s, timeUsed, cursor, pool).rest == target.rest
    ensures k < |pool| && |RemoveName(pool, pool[k].name)| < |pool|
    ensures (dayPois + [pool[k]]) + FillDay(s, Charged(s, timeUsed, cursor, pool[k]), pool[k].Location(), RemoveName(pool, pool[k].name)).picks
         == target.picks
    ensures FillDay(s, Charged(s, timeUsed, cursor, pool[k]), pool[k].Location(), RemoveName(pool, pool[k].name)).rest == target.rest
  {
    FillDayStep(s, timeUsed, cursor, pool, k);
    var next := FillDay(s, Charged(s, timeUsed, cursor, pool[k]), pool[k].Location(), RemoveName(pool, pool[k].name));
    assert (dayPois + [pool[k]]) + next.picks == dayPois + ([pool[k]] + next.picks);
  }

  /** Plans `days` days from `cityPois` for `travelStyle`: ranks the pool by
      score once, starts every day at the stay coordinate or the pool's
      centroid, fills each day greedily and stamps it from `dayStart`. */
  method GenerateItinerary(dist: Distance, cityPois: seq<Poi>, days: int, travelStyle: string, dayStart: real,
                           stayCoord: Option<Coord>, dayHoursBudget: real := DefaultDayHoursBudget)
    returns (itinerary: map<int, seq<Entry>>)
    requires stayCoord.Some? || |cityPois| > 0
    ensures forall d :: d in itinerary <==> 1 <= d <= days
    ensures forall d :: 1 <= d <= days ==>
      itinerary[d] == StampDay(dist, PlanFor(dist, cityPois, days, travelStyle, stayCoord, dayHoursBudget)[d - 1], dayStart)
    ensures forall d, i :: d in itinerary && 0 <= i < |itinerary[d]| ==> itinerary[d][i].poi in cityPois
    ensures UniqueNames(itinerary)
    ensures forall d :: d in itinerary && itinerary[d] != [] ==>
      DayCost(dist, Center(stayCoord, SortByScore(cityPois, travelStyle)), PoisOf(itinerary[d])) <= dayHoursBudget
  {
    var pois := SortByScore(cityPois, travelStyle);
    var center := Center(stayCoord, pois);
    itinerary := FillDays(Settings(dist, travelStyle, dayHoursBudget), center, pois, days, dayStart);
    StampedPlanProperties(dist, cityPois, days, travelStyle, dayStart, stayCoord, dayHoursBudget, itinerary);
  }

  /** The day loop of the generator: days 1 to `days` in turn, each filled
      from what the earlier days left of `pool` and stamped from
      `dayStart`. */
  method FillDays(s: Settings, center: Coord, pool: seq<Poi>, days: int, dayStart: real)
    returns (itinerary: map<int, seq<Entry>>)
    ensures forall d :: d in itinerary <==> 1 <= d <= days
    ensures forall d :: 1 <= d <= days ==> itinerary[d] == StampDay(s.dist, Plan(s, center, pool, days)[d - 1], dayStart)
  {
    var remaining := pool;
    itinerary := EmptyDays(days);
    ghost var planned: seq<seq<Poi>> := [];
    var day := 1;
    while day <= days
      invariant 1 <= day && (days >= 1 ==> day <= days + 1)
      invariant forall d :: d in itinerary <==> 1 <= d <= days
      invariant |planned| == day - 1
      invariant planned + Plan(s, center, remaining, days - day + 1) == Plan(s, center, pool, days)
      invariant forall d :: 1 <= d < day ==> d in itinerary && itinerary[d] == StampDay(s.dist, planned[d - 1], dayStart)
    {
      PlanAdvance(s, center, remaining, days - day + 1, planned, Plan(s, center, pool, days));
      var dayPois;
      dayPois, remaining := FillOneDay(s, center, remaining);
      var stamped := RecomputeDayTimes(s.dist, dayPois, dayStart);
      RecordDay(s.dist, dayStart, itinerary, planned, day, dayPois, itinerary[day := stamped], planned + [dayPois]);
      itinerary := itinerary[day := stamped];
      planned := planned + [dayPois];
      day := day + 1;
    }
  }

  /** Filling one more day moves its picks from the unplanned part of the
      plan to the planned part. */
  lemma PlanAdvance(s: Settings, center: Coord, remaining: seq<Poi>, n: int, planned: seq<seq<Poi>>, target: seq<seq<Poi>>)
    requires n > 0
    requires planned + Plan(s, center, remaining, n) == target
    ensures (planned + [FillDay(s, 0.0, center, remaining).picks]) + Plan(s, center, FillDay(s, 0.0, center, remaining).rest, n - 1)
         == target
  {
    var fill := FillDay(s, 0.0, center, remaining);
    var later := Plan(s, center, fill.rest, n - 1);
    assert Plan(s, center, remaining, n) == [fill.picks] + later;
    assert (planned + [fill.picks]) + later == planned + ([fill.picks] + later);
  }

  /** Storing the stamped copy of one more day keeps every stored day the
      stamped copy of its planned day. */
  lemma RecordDay(dist: Distance, dayStart: real, itinerary: map<int, seq<Entry>>, planned: seq<seq<Poi>>, day: int,
                  dayPois: seq<Poi>, updated: map<int, seq<Entry>>, extended: seq<seq<Poi>>)
    requires |planned| == day - 1
    requires forall d :: 1 <= d < day ==> d in itinerary && itinerary[d] == StampDay(dist, planned[d - 1], dayStart)
    requires updated == itinerary[day := StampDay(dist, dayPois, dayStart)] && extended == planned + [dayPois]
    ensures forall d :: 1 <= d <= day ==> d in updated && updated[d] == StampDay(dist, extended[d - 1], dayStart)
  {
    forall d | 1 <= d <= day
      ensures d in updated && updated[d] == StampDay(dist, extended[d - 1], dayStart)
    {
      if d < day {
        assert extended[d - 1] == planned[d - 1];
      }
    }
  }

  /** An itinerary that stamps, day by day, the plan the generator follows
      has every property the plan has. */
  lemma StampedPlanProperties(dist: Distance, cityPois: seq<Poi>, days: int, travelStyle: string, dayStart: real,
                              stayCoord: Option<Coord>, dayHoursBudget: real, itinerary: map<int, seq<Entry>>)
    requires stayCoord.Some? || |cityPois| > 0
    requires forall d :: d in itinerary <==> 1 <= d <= days
    requires forall d :: 1 <= d <= days ==>
      itinerary[d] == StampDay(dist, PlanFor(dist, cityPois, days, travelStyle, stayCoord, dayHoursBudget)[d - 1], dayStart)
    ensures forall d, i :: d in itinerary && 0 <= i < |itinerary[d]| ==> itinerary[d][i].poi in cityPois
    ensures UniqueNames(itinerary)
    ensures forall d :: d in itinerary && itinerary[d] != [] ==>
      DayCost(dist, Center(stayCoord, SortByScore(cityPois, travelStyle)), PoisOf(itinerary[d])) <= dayHoursBudget
  {
    var s := Settings(dist, travelStyle, dayHoursBudget);
    var pois := SortByScore(cityPois, travelStyle);
    var center := Center(stayCoord, pois);
    var plan := Plan(s, center, pois, days);
    assert forall d :: d in itinerary ==> 1 <= d <= |plan| && PoisOf(itinerary[d]) == plan[d - 1] by {
      forall d | d in itinerary ensures 1 <= d <= |plan| && PoisOf(itinerary[d]) == plan[d - 1] {
        RestampIsStable(dist, plan[d - 1], dayStart);
      }
    }
    assert PlanDrawnFrom(plan, pois) && PlanNamesUnique(plan) && PlanWithinBudget(s, center, plan) by {
      PlanDrawsFromPool(s, center, pois, days);
      PlanNamesDistinct(s, center, pois, days);
      PlanKeepsBudget(s, center, pois, days);
    }
    ItineraryKeepsPlan(s, center, pois, cityPois, plan, itinerary);
  }
}
