/** The edits a traveller makes to one day of a generated itinerary: move an
    activity up, move it down, or remove it. Each edit changes the day's
    list of entries and then re-stamps the whole day from the day start. */
module DayEdits {
  import opened Types
  import opened Scheduler

  /** The list with positions i and i + 1 exchanged. */
  function SwapAdjacent<T>(s: seq<T>, i: int): (r: seq<T>)
    requires 0 <= i && i + 1 < |s|
    ensures |r| == |s|
    ensures r[i] == s[i + 1] && r[i + 1] == s[i]
    ensures forall k :: 0 <= k < |s| && k != i && k != i + 1 ==> r[k] == s[k]
    ensures multiset(r) == multiset(s)
  {
    s[i := s[i + 1]][i + 1 := s[i]]
  }

  /** The list without position idx; what followed it moves one place forward. */
  function RemoveAt<T>(s: seq<T>, idx: int): (r: seq<T>)
    requires 0 <= idx < |s|
    ensures |r| == |s| - 1
    ensures forall k :: 0 <= k < idx ==> r[k] == s[k]
    ensures forall k :: idx <= k < |r| ==> r[k] == s[k + 1]
    ensures multiset(r) + multiset{s[idx]} == multiset(s)
  {
    assert s == s[..idx] + [s[idx]] + s[idx + 1..];
    s[..idx] + s[idx + 1..]
  }

  /** Swapping the same neighbours twice gives the original list back, so a
      move down followed by a move up of the same activity undoes it. */
  lemma SwapTwiceRestores<T>(s: seq<T>, i: int)
    requires 0 <= i && i + 1 < |s|
    ensures SwapAdjacent(SwapAdjacent(s, i), i) == s
  {
  }

  /** Exchanging two entries and then dropping the times exchanges the POIs. */
  lemma PoisOfSwap(entries: seq<Entry>, i: int)
    requires 0 <= i && i + 1 < |entries|
    ensures PoisOf(SwapAdjacent(entries, i)) == SwapAdjacent(PoisOf(entries), i)
  {
  }

  /** Dropping an entry and then dropping the times drops that POI. */
  lemma PoisOfRemove(entries: seq<Entry>, idx: int)
    requires 0 <= idx < |entries|
    ensures PoisOf(RemoveAt(entries, idx)) == RemoveAt(PoisOf(entries), idx)
  {
  }

  /** A day rebuilt from the POIs of the old day, each old position used at
      most once (given by `from`), keeps the itinerary's names unique. */
  lemma {:induction false} RearrangedDayKeepsNamesUnique(
    itinerary: map<int, seq<Entry>>, day: int, pois: seq<Poi>, from: int -> int)
    requires UniqueNames(itinerary) && day in itinerary
    requires forall i :: 0 <= i < |pois| ==>
      0 <= from(i) < |itinerary[day]| && pois[i] == itinerary[day][from(i)].poi
    requires forall i, j :: 0 <= i < |pois| && 0 <= j < |pois| && i != j ==> from(i) != from(j)
    ensures forall dist: Distance, dayStart: real ::
      UniqueNames(itinerary[day := StampDay(dist, pois, dayStart)])
  {
    forall dist: Distance, dayStart: real
      ensures UniqueNames(itinerary[day := StampDay(dist, pois, dayStart)])
    {
      var updated: map<int, seq<Entry>> := itinerary[day := StampDay(dist, pois, dayStart)];
      RestampIsStable(dist, pois, dayStart);
      assert forall i: int :: 0 <= i < |updated[day]| ==> updated[day][i].poi == itinerary[day][from(i)].poi by {
        forall i: int | 0 <= i < |updated[day]|
          ensures updated[day][i].poi == itinerary[day][from(i)].poi
        {
          assert updated[day][i].poi == PoisOf(updated[day])[i];
        }
      }
      forall d1: int, i: int, d2: int, j: int |
        d1 in updated && d2 in updated && 0 <= i < |updated[d1]| && 0 <= j < |updated[d2]| &&
        (d1 != d2 || i != j)
        ensures updated[d1][i].poi.name != updated[d2][j].poi.name
      {
        var i' := if d1 == day then from(i) else i;
        var j' := if d2 == day then from(j) else j;
        assert updated[d1][i].poi == itinerary[d1][i'].poi;
        assert updated[d2][j].poi == itinerary[d2][j'].poi;
      }
    }
  }

  /** Moving a POI within a day keeps every name in the itinerary unique. */
  lemma SwapKeepsNamesUnique(itinerary: map<int, seq<Entry>>, day: int, i: int, dist: Distance, dayStart: real)
    requires UniqueNames(itinerary) && day in itinerary && 0 <= i && i + 1 < |itinerary[day]|
    ensures UniqueNames(itinerary[day := StampDay(dist, SwapAdjacent(PoisOf(itinerary[day]), i), dayStart)])
  {
    var from := k => if k == i then i + 1 else if k == i + 1 then i else k;
    RearrangedDayKeepsNamesUnique(itinerary, day, SwapAdjacent(PoisOf(itinerary[day]), i), from);
  }

  /** Removing a POI from a day keeps every name in the itinerary unique. */
  lemma RemoveKeepsNamesUnique(itinerary: map<int, seq<Entry>>, day: int, idx: int, dist: Distance, dayStart: real)
    requires UniqueNames(itinerary) && day in itinerary && 0 <= idx < |itinerary[day]|
    ensures UniqueNames(itinerary[day := StampDay(dist, RemoveAt(PoisOf(itinerary[day]), idx), dayStart)])
  {
    var from := k => if k < idx then k else k + 1;
    RearrangedDayKeepsNamesUnique(itinerary, day, RemoveAt(PoisOf(itinerary[day]), idx), from);
  }

  /** The itinerary held between edits: day number to that day's stamped
      entries. */
  class TripPlan {
    const dist: Distance
    var itinerary: map<int, seq<Entry>>

    /** No POI is scheduled twice anywhere in the trip. */
    ghost predicate Valid()
      reads this
    {
      UniqueNames(itinerary)
    }

    constructor (dist: Distance, itinerary: map<int, seq<Entry>>)
      requires UniqueNames(itinerary)
      ensures Valid()
      ensures this.dist == dist && this.itinerary == itinerary
    {
      this.dist := dist;
      this.itinerary := itinerary;
    }

    /** The up button on position idx: the activity trades places with the
        one before it and the day is re-stamped; on the first position
        nothing happens. */
    method MoveUp(day: int, idx: int, dayStart: real)
      requires Valid() && day in itinerary && 0 <= idx < |itinerary[day]|
      modifies this
      ensures Valid()
      ensures idx == 0 ==> itinerary == old(itinerary)
      ensures idx > 0 ==>
        itinerary == old(itinerary)[day := StampDay(dist, SwapAdjacent(PoisOf(old(itinerary)[day]), idx - 1), dayStart)]
    {
      if idx > 0 {
        var dayActs := itinerary[day];
        PoisOfSwap(dayActs, idx - 1);
        SwapKeepsNamesUnique(itinerary, day, idx - 1, dist, dayStart);
        dayActs := SwapAdjacent(dayActs, idx - 1);
        var newList := RecomputeDayTimes(dist, PoisOf(dayActs), dayStart);
        itinerary := itinerary[day := newList];
      }
    }

    /** The down button on position idx: the activity trades places with the
        one after it and the day is re-stamped; on the last position nothing
        happens. */
    method MoveDown(day: int, idx: int, dayStart: real)
      requires Valid() && day in itinerary && 0 <= idx < |itinerary[day]|
      modifies this
      ensures Valid()
      ensures idx == |old(itinerary)[day]| - 1 ==> itinerary == old(itinerary)
      ensures idx < |old(itinerary)[day]| - 1 ==>
        itinerary == old(itinerary)[day := StampDay(dist, SwapAdjacent(PoisOf(old(itinerary)[day]), idx), dayStart)]
    {
      if idx < |itinerary[day]| - 1 {
        var dayActs := itinerary[day];
        PoisOfSwap(dayActs, idx);
        SwapKeepsNamesUnique(itinerary, day, idx, dist, dayStart);
        dayActs := SwapAdjacent(dayActs, idx);
        var newList := RecomputeDayTimes(dist, PoisOf(dayActs), dayStart);
        itinerary := itinerary[day := newList];
      }
    }

    /** The remove button on position idx: the activity leaves the day and
        the rest of the day is re-stamped. */
    method Remove(day: int, idx: int, dayStart: real)
      requires Valid() && day in itinerary && 0 <= idx < |itinerary[day]|
      modifies this
      ensures Valid()
      ensures itinerary ==
        old(itinerary)[day := StampDay(dist, RemoveAt(PoisOf(old(itinerary)[day]), idx), dayStart)]
    {
      var dayActs := itinerary[day];
      PoisOfRemove(dayActs, idx);
      RemoveKeepsNamesUnique(itinerary, day, idx, dist, dayStart);
      dayActs := RemoveAt(dayActs, idx);
      var newList := RecomputeDayTimes(dist, PoisOf(dayActs), dayStart);
      itinerary := itinerary[day := newList];
    }
  }
}
