/** The pieces the greedy generator is built from: the initial relevance
    ranking of the pool, the start point, the budget test, the ranking of
    candidates and the "first candidate that fits" choice, and the removal
    of a picked name from the pool. */
module Selection {
  import opened Types
  import opened Travel
  import opened Scoring

  /** What stays fixed during one run of the generator. */
  datatype Settings = Settings(dist: Distance, travelStyle: string, dayHoursBudget: real)

  /** Scores never increase along `pois`. */
  predicate ScoreDescending(pois: seq<Poi>, travelStyle: string) {
    forall i, j :: 0 <= i < j < |pois| ==> Score(pois[i], travelStyle) >= Score(pois[j], travelStyle)
  }

  /** A head scoring at least as high as every element of a descending list
      keeps the list descending. */
  lemma ConsDescending(head: Poi, tail: seq<Poi>, travelStyle: string)
    requires ScoreDescending(tail, travelStyle)
    requires forall x :: x in tail ==> Score(x, travelStyle) <= Score(head, travelStyle)
    ensures ScoreDescending([head] + tail, travelStyle)
  {
    var r := [head] + tail;
    forall i, j | 0 <= i < j < |r|
      ensures Score(r[i], travelStyle) >= Score(r[j], travelStyle)
    {
      assert r[j] == tail[j - 1];
      if i > 0 {
        assert r[i] == tail[i - 1];
      } else {
        assert tail[j - 1] in tail;
      }
    }
  }

  /** Puts `poi` in front of the first element of `sorted` that does not
      score higher, so that it stays ahead of later elements of equal score. */
  function InsertByScore(poi: Poi, sorted: seq<Poi>, travelStyle: string): (r: seq<Poi>)
    requires ScoreDescending(sorted, travelStyle)
    ensures multiset(r) == multiset(sorted) + multiset{poi}
    ensures ScoreDescending(r, travelStyle)
    decreases |sorted|
  {
    if sorted == [] || Score(sorted[0], travelStyle) <= Score(poi, travelStyle) then
      assert forall x :: x in sorted ==> Score(x, travelStyle) <= Score(poi, travelStyle) by {
        forall x | x in sorted ensures Score(x, travelStyle) <= Score(poi, travelStyle) {
          var i :| 0 <= i < |sorted| && sorted[i] == x;
          assert i == 0 || Score(sorted[0], travelStyle) >= Score(sorted[i], travelStyle);
        }
      }
      ConsDescending(poi, sorted, travelStyle);
      [poi] + sorted
    else
      var tail := InsertByScore(poi, sorted[1..], travelStyle);
      assert sorted == [sorted[0]] + sorted[1..];
      assert forall x :: x in tail ==> Score(x, travelStyle) <= Score(sorted[0], travelStyle) by {
        forall x | x in tail ensures Score(x, travelStyle) <= Score(sorted[0], travelStyle) {
          assert x in multiset(tail);
          if x != poi {
            assert x in multiset(sorted[1..]);
            var i :| 0 <= i < |sorted[1..]| && sorted[1..][i] == x;
            assert sorted[i + 1] == x;
          }
        }
      }
      ConsDescending(sorted[0], tail, travelStyle);
      [sorted[0]] + tail
  }

  /** The pool ranked once by score, highest first, keeping the catalog
      order among equal scores (a stable sort). */
  function SortByScore(pois: seq<Poi>, travelStyle: string): (sorted: seq<Poi>)
    ensures multiset(sorted) == multiset(pois)
    ensures ScoreDescending(sorted, travelStyle)
    decreases |pois|
  {
    if pois == [] then []
    else
      assert pois == [pois[0]] + pois[1..];
      InsertByScore(pois[0], SortByScore(pois[1..], travelStyle), travelStyle)
  }

  /** The POIs of `pois` scoring exactly `v`, in their order in `pois`. */
  function WithScore(pois: seq<Poi>, travelStyle: string, v: real): seq<Poi>
    decreases |pois|
  {
    if pois == [] then []
    else (if Score(pois[0], travelStyle) == v then [pois[0]] else []) + WithScore(pois[1..], travelStyle, v)
  }

  /** Inserting a POI puts it ahead of every element of equal score. */
  lemma {:induction false} InsertByScoreKeepsTies(poi: Poi, sorted: seq<Poi>, travelStyle: string, v: real)
    requires ScoreDescending(sorted, travelStyle)
    ensures WithScore(InsertByScore(poi, sorted, travelStyle), travelStyle, v)
         == (if Score(poi, travelStyle) == v then [poi] else []) + WithScore(sorted, travelStyle, v)
    decreases |sorted|
  {
    var mine := if Score(poi, travelStyle) == v then [poi] else [];
    if sorted == [] || Score(sorted[0], travelStyle) <= Score(poi, travelStyle) {
      assert ([poi] + sorted)[1..] == sorted;
    } else {
      var tail := InsertByScore(poi, sorted[1..], travelStyle);
      var r := [sorted[0]] + tail;
      assert InsertByScore(poi, sorted, travelStyle) == r;
      var head := if Score(sorted[0], travelStyle) == v then [sorted[0]] else [];
      var later := WithScore(sorted[1..], travelStyle, v);
      assert WithScore(r, travelStyle, v) == head + WithScore(tail, travelStyle, v) by {
        assert r[0] == sorted[0] && r[1..] == tail;
      }
      assert WithScore(tail, travelStyle, v) == mine + later by {
        InsertByScoreKeepsTies(poi, sorted[1..], travelStyle, v);
      }
      assert head == [] || mine == [];
      JoinEitherEmpty(head, mine, later);
    }
  }

  /** Of two lists at least one of which is empty, either may go first. */
  lemma JoinEitherEmpty(a: seq<Poi>, b: seq<Poi>, rest: seq<Poi>)
    requires a == [] || b == []
    ensures a + (b + rest) == b + (a + rest)
  {
    if a == [] {
      assert a + (b + rest) == b + rest;
    } else {
      assert b + (a + rest) == a + rest;
    }
  }

  /** The ranking is stable: POIs of equal score keep their catalog order,
      as Python's `sorted` with `reverse=True` does. */
  lemma {:induction false} SortByScoreIsStable(pois: seq<Poi>, travelStyle: string, v: real)
    ensures WithScore(SortByScore(pois, travelStyle), travelStyle, v) == WithScore(pois, travelStyle, v)
    decreases |pois|
  {
    if pois != [] {
      SortByScoreIsStable(pois[1..], travelStyle, v);
      InsertByScoreKeepsTies(pois[0], SortByScore(pois[1..], travelStyle), travelStyle, v);
    }
  }

  function SumLat(pois: seq<Poi>): real {
    if pois == [] then 0.0 else pois[0].lat + SumLat(pois[1..])
  }

  function SumLon(pois: seq<Poi>): real {
    if pois == [] then 0.0 else pois[0].lon + SumLon(pois[1..])
  }

  /** The start point of every day: the stay coordinate when one is given,
      else the mean position of the pool. Without a stay coordinate the pool
      must not be empty (the program divides by its size). */
  function Center(stayCoord: Option<Coord>, pois: seq<Poi>): (center: Coord)
    requires stayCoord.Some? || |pois| > 0
    ensures stayCoord.Some? ==> center == stayCoord.value
  {
    match stayCoord
    case Some(coord) => coord
    case None => Coord(SumLat(pois) / |pois| as real, SumLon(pois) / |pois| as real)
  }

  /** `n` copies of `x` added up, so that bounds on a sum stay linear. */
  function Times(x: real, n: nat): real {
    if n == 0 then 0.0 else x + Times(x, n - 1)
  }

  lemma {:induction false} TimesIsProduct(x: real, n: nat)
    ensures Times(x, n) == x * n as real
  {
    if n > 0 {
      TimesIsProduct(x, n - 1);
      assert x * n as real == x * (n - 1) as real + x;
    }
  }

  /** Bounds on every latitude bound the sum of latitudes. */
  lemma {:induction false} SumLatBounds(pois: seq<Poi>, low: real, high: real)
    requires forall p :: p in pois ==> low <= p.lat <= high
    ensures Times(low, |pois|) <= SumLat(pois) <= Times(high, |pois|)
  {
    if pois != [] {
      assert pois[0] in pois;
      SumLatBounds(pois[1..], low, high);
    }
  }

  /** Bounds on every longitude bound the sum of longitudes. */
  lemma {:induction false} SumLonBounds(pois: seq<Poi>, low: real, high: real)
    requires forall p :: p in pois ==> low <= p.lon <= high
    ensures Times(low, |pois|) <= SumLon(pois) <= Times(high, |pois|)
  {
    if pois != [] {
      assert pois[0] in pois;
      SumLonBounds(pois[1..], low, high);
    }
  }

  /** The centroid lies in every box that holds the whole pool. */
  lemma CenterWithinBox(pois: seq<Poi>, low: Coord, high: Coord)
    requires |pois| > 0
    requires forall p :: p in pois ==> low.lat <= p.lat <= high.lat && low.lon <= p.lon <= high.lon
    ensures var center := Center(None, pois);
      low.lat <= center.lat <= high.lat && low.lon <= center.lon <= high.lon
  {
    SumLatBounds(pois, low.lat, high.lat);
    SumLonBounds(pois, low.lon, high.lon);
    MeanWithin(SumLat(pois), |pois|, low.lat, high.lat);
    MeanWithin(SumLon(pois), |pois|, low.lon, high.lon);
  }

  /** A sum of `n` values between `low` and `high` has its mean between them. */
  lemma MeanWithin(sum: real, n: nat, low: real, high: real)
    requires n > 0 && Times(low, n) <= sum <= Times(high, n)
    ensures low <= sum / n as real <= high
  {
    TimesIsProduct(low, n);
    TimesIsProduct(high, n);
    MeanBounds(sum, n as real, low, high);
  }

  lemma MeanBounds(sum: real, n: real, low: real, high: real)
    requires n > 0.0 && low * n <= sum <= high * n
    ensures low <= sum / n <= high
  {
  }

  /** The hours used after travelling from `cursor` to `poi` and visiting it. */
  function Charged(s: Settings, timeUsed: real, cursor: Coord, poi: Poi): real {
    timeUsed + TravelTimeHours(s.dist, cursor, poi.Location()) + poi.Duration()
  }

  /** The budget test: the time used so far, plus travel from the cursor,
      plus the visit, stays within the day's budget. */
  predicate Fits(s: Settings, timeUsed: real, cursor: Coord, poi: Poi) {
    Charged(s, timeUsed, cursor, poi) <= s.dayHoursBudget
  }

  /** Candidate `a` comes before candidate `b` in the candidate order: higher
      score first, then smaller distance from the cursor, then earlier place
      in the pool (the sort is stable). */
  predicate RankedBefore(s: Settings, cursor: Coord, pool: seq<Poi>, a: nat, b: nat)
    requires a < |pool| && b < |pool|
  {
    var scoreA, scoreB := Score(pool[a], s.travelStyle), Score(pool[b], s.travelStyle);
    var distA, distB := s.dist(cursor, pool[a].Location()), s.dist(cursor, pool[b].Location());
    scoreA > scoreB || (scoreA == scoreB && (distA < distB || (distA == distB && a < b)))
  }

  /** Among the first `n` candidates, `k` fits and no candidate ranked
      before it fits. */
  predicate IsFirstFitIn(s: Settings, timeUsed: real, cursor: Coord, pool: seq<Poi>, n: nat, k: nat)
    requires n <= |pool|
  {
    k < n && Fits(s, timeUsed, cursor, pool[k]) &&
    forall j :: 0 <= j < n && RankedBefore(s, cursor, pool, j, k) ==> !Fits(s, timeUsed, cursor, pool[j])
  }

  /** The candidate order is a strict total order on positions. */
  lemma RankedBeforeOrder(s: Settings, cursor: Coord, pool: seq<Poi>, a: nat, b: nat, c: nat)
    requires a < |pool| && b < |pool| && c < |pool|
    ensures !RankedBefore(s, cursor, pool, a, a)
    ensures a != b ==> RankedBefore(s, cursor, pool, a, b) || RankedBefore(s, cursor, pool, b, a)
    ensures RankedBefore(s, cursor, pool, a, b) && RankedBefore(s, cursor, pool, b, c) ==> RankedBefore(s, cursor, pool, a, c)
  {
  }

  /** When some candidate fits, a first fitting one exists. */
  lemma {:induction false} FirstFitExists(s: Settings, timeUsed: real, cursor: Coord, pool: seq<Poi>, n: nat)
    requires n <= |pool|
    requires exists j :: 0 <= j < n && Fits(s, timeUsed, cursor, pool[j])
    ensures exists k :: IsFirstFitIn(s, timeUsed, cursor, pool, n, k)
  {
    var last := n - 1;
    if exists j :: 0 <= j < last && Fits(s, timeUsed, cursor, pool[j]) {
      FirstFitExists(s, timeUsed, cursor, pool, last);
      var k :| IsFirstFitIn(s, timeUsed, cursor, pool, last, k);
      if Fits(s, timeUsed, cursor, pool[last]) && RankedBefore(s, cursor, pool, last, k) {
        forall j | 0 <= j < n && RankedBefore(s, cursor, pool, j, last)
          ensures !Fits(s, timeUsed, cursor, pool[j])
        {
          RankedBeforeOrder(s, cursor, pool, j, last, k);
          RankedBeforeOrder(s, cursor, pool, j, j, j);
        }
        assert IsFirstFitIn(s, timeUsed, cursor, pool, n, last);
      } else {
        assert IsFirstFitIn(s, timeUsed, cursor, pool, n, k);
      }
    } else {
      RankedBeforeOrder(s, cursor, pool, last, last, last);
      assert IsFirstFitIn(s, timeUsed, cursor, pool, n, last);
    }
  }

  /** At most one candidate is the first that fits. */
  lemma FirstFitUnique(s: Settings, timeUsed: real, cursor: Coord, pool: seq<Poi>, k1: nat, k2: nat)
    requires IsFirstFitIn(s, timeUsed, cursor, pool, |pool|, k1)
    requires IsFirstFitIn(s, timeUsed, cursor, pool, |pool|, k2)
    ensures k1 == k2
  {
    RankedBeforeOrder(s, cursor, pool, k1, k2, k2);
  }

  /** The candidate the generator picks: the first one in candidate order
      whose visit fits the budget, or none when no candidate fits. */
  ghost function FirstFit(s: Settings, timeUsed: real, cursor: Coord, pool: seq<Poi>): (k: Option<nat>)
    ensures k.None? <==> forall j :: 0 <= j < |pool| ==> !Fits(s, timeUsed, cursor, pool[j])
    ensures k.Some? ==> IsFirstFitIn(s, timeUsed, cursor, pool, |pool|, k.value)
  {
    if exists j :: 0 <= j < |pool| && Fits(s, timeUsed, cursor, pool[j]) then
      FirstFitExists(s, timeUsed, cursor, pool, |pool|);
      Some(var k :| IsFirstFitIn(s, timeUsed, cursor, pool, |pool|, k); k)
    else
      None
  }

  /** Scans the candidates and returns the position of the first one, in
      candidate order, that fits the budget. The program sorts the candidate
      list and stops at the first fit; keeping the best fit seen so far in
      one pass picks the same candidate. */
  method PickFirstFitting(s: Settings, timeUsed: real, cursor: Coord, candidates: seq<Poi>) returns (picked: Option<nat>)
    ensures picked.None? <==> forall j :: 0 <= j < |candidates| ==> !Fits(s, timeUsed, cursor, candidates[j])
    ensures picked.Some? ==> IsFirstFitIn(s, timeUsed, cursor, candidates, |candidates|, picked.value)
    ensures picked == FirstFit(s, timeUsed, cursor, candidates)
  {
    picked := None;
    for i := 0 to |candidates|
      invariant picked.None? ==> forall j :: 0 <= j < i ==> !Fits(s, timeUsed, cursor, candidates[j])
      invariant picked.Some? ==> IsFirstFitIn(s, timeUsed, cursor, candidates, i, picked.value)
    {
      if Fits(s, timeUsed, cursor, candidates[i]) && (picked.None? || RankedBefore(s, cursor, candidates, i, picked.value)) {
        forall j | 0 <= j < i + 1 && RankedBefore(s, cursor, candidates, j, i)
          ensures !Fits(s, timeUsed, cursor, candidates[j])
        {
          RankedBeforeOrder(s, cursor, candidates, i, i, i);
          if picked.Some? {
            RankedBeforeOrder(s, cursor, candidates, j, i, picked.value);
          }
        }
        picked := Some(i);
      }
    }
    var spec := FirstFit(s, timeUsed, cursor, candidates);
    if picked.Some? {
      FirstFitUnique(s, timeUsed, cursor, candidates, picked.value, spec.value);
    }
  }

  /** The pool without every POI named `name`, in the same order. */
  function RemoveName(pool: seq<Poi>, name: string): (rest: seq<Poi>)
    ensures forall p :: p in rest <==> p in pool && p.name != name
    ensures |rest| <= |pool|
    ensures (exists i :: 0 <= i < |pool| && pool[i].name == name) ==> |rest| < |pool|
    decreases |pool|
  {
    if pool == [] then []
    else
      assert pool == [pool[0]] + pool[1..];
      (if pool[0].name == name then [] else [pool[0]]) + RemoveName(pool[1..], name)
  }

  /** Removal by name distributes over concatenation: the kept POIs stay in
      the order they had in the pool. */
  lemma {:induction false} RemoveNameAppend(a: seq<Poi>, b: seq<Poi>, name: string)
    ensures RemoveName(a + b, name) == RemoveName(a, name) + RemoveName(b, name)
    decreases |a|
  {
    if a == [] {
      assert a + b == b;
    } else {
      assert (a + b)[0] == a[0];
      assert (a + b)[1..] == a[1..] + b;
      RemoveNameAppend(a[1..], b, name);
      var head := if a[0].name == name then [] else [a[0]];
      assert head + (RemoveName(a[1..], name) + RemoveName(b, name))
          == (head + RemoveName(a[1..], name)) + RemoveName(b, name);
    }
  }
}
