/**
 * The filter engine of `applyFilters` and the counts of `updateStats`.
 * The three inputs of the page (search box, camera select, time select)
 * are a `Criteria`; the wall clock read while filtering is a `Clock`.
 */
module FilterEngine {
  import opened Wrappers
  import opened Text
  import opened Events

  /** The raw values of the search box, the camera select and the time select. */
  datatype Criteria = Criteria(search: string, camera: string, timeFrame: string)

  /**
   * "Now" as the filter sees it: today's calendar date, and the instants one
   * calendar week and one calendar month back from now.
   */
  datatype Clock = Clock(today: int, weekAgo: int, monthAgo: int)

  const AllCameras: string := "all"
  const AllTime: string := "all"
  const Today: string := "today"
  const Week: string := "week"
  const Month: string := "month"

  predicate CameraPasses(e: Event, camera: string) {
    camera == AllCameras || e.cameraName == camera
  }

  /** The time-window check; a value other than the four known ones places no constraint. */
  predicate TimePasses(e: Event, timeFrame: string, clock: Clock) {
    if timeFrame == AllTime then true
    else if timeFrame == Today then e.day == clock.today
    else if timeFrame == Week then !(e.timestamp < clock.weekAgo)
    else if timeFrame == Month then !(e.timestamp < clock.monthAgo)
    else true
  }

  /** The text searched: the camera name, a space, and the formatted time or nothing. */
  function SearchText(e: Event): string {
    e.cameraName + " " + e.formattedTime.GetOr("")
  }

  /** The case-insensitive search; an empty term switches it off. */
  predicate SearchPasses(e: Event, search: string) {
    var term := Lower(search);
    term == [] || Contains(Lower(SearchText(e)), term)
  }

  /** The predicate handed to `allEvents.filter`: all three checks must pass. */
  predicate Matches(e: Event, c: Criteria, clock: Clock) {
    CameraPasses(e, c.camera) && TimePasses(e, c.timeFrame, clock) && SearchPasses(e, c.search)
  }

  /** `allEvents.filter(...)`: the events that match, in their original order. */
  function Filter(s: seq<Event>, c: Criteria, clock: Clock): (r: seq<Event>)
    ensures |r| <= |s|
    ensures forall x :: x in r ==> x in s && Matches(x, c, clock)
    ensures forall x :: x in s && Matches(x, c, clock) ==> x in r
  {
    if s == [] then []
    else if Matches(s[0], c, clock) then [s[0]] + Filter(s[1..], c, clock)
    else Filter(s[1..], c, clock)
  }

  /** `r` is `s` with some elements left out and the rest in their original order. */
  predicate IsSubsequence<T(==)>(r: seq<T>, s: seq<T>)
    decreases |s|
  {
    if r == [] then true
    else if s == [] then false
    else if r[0] == s[0] then IsSubsequence(r[1..], s[1..])
    else IsSubsequence(r, s[1..])
  }

  lemma {:induction false} SubsequenceOfTail<T>(r: seq<T>, s: seq<T>)
    requires s != [] && IsSubsequence(r, s[1..])
    ensures IsSubsequence(r, s)
    decreases |s|, 1
  {
    if r != [] && r[0] == s[0] {
      // The first element of r also matches s[1..] somewhere, so r[1..] fits after it.
      SubsequenceDropHead(r, s[1..]);
    }
  }

  lemma {:induction false} SubsequenceDropHead<T>(r: seq<T>, s: seq<T>)
    requires r != [] && IsSubsequence(r, s)
    ensures IsSubsequence(r[1..], s)
    decreases |s| + 1, 0
  {
    if r[0] == s[0] {
      if s[1..] != [] {
        assert IsSubsequence(r[1..], s[1..]);
        SubsequenceOfTail(r[1..], s);
      } else {
        assert r[1..] == [];
      }
    } else {
      SubsequenceDropHead(r, s[1..]);
      SubsequenceOfTail(r[1..], s);
    }
  }

  /** Filtering only drops events: the result keeps the collection's order. */
  lemma {:induction false} FilterIsSubsequence(s: seq<Event>, c: Criteria, clock: Clock)
    ensures IsSubsequence(Filter(s, c, clock), s)
  {
    if s != [] {
      FilterIsSubsequence(s[1..], c, clock);
      if !Matches(s[0], c, clock) {
        SubsequenceOfTail(Filter(s, c, clock), s);
      }
    }
  }

  /** Each event occurs in the filtered list as often as in the collection if it matches, and never otherwise. */
  lemma {:induction false} FilterMultiplicity(s: seq<Event>, c: Criteria, clock: Clock, x: Event)
    ensures multiset(Filter(s, c, clock))[x] == if Matches(x, c, clock) then multiset(s)[x] else 0
  {
    if s != [] {
      FilterMultiplicity(s[1..], c, clock, x);
      assert s == [s[0]] + s[1..];
    }
  }

  /** With camera `all`, time frame `all` and an empty search, nothing is filtered out. */
  lemma {:induction false} FilterNoCriteria(s: seq<Event>, clock: Clock)
    ensures Filter(s, Criteria("", AllCameras, AllTime), clock) == s
  {
    if s != [] {
      FilterNoCriteria(s[1..], clock);
      assert s == [s[0]] + s[1..];
    }
  }

  /** Every kept event passes each active check. */
  lemma FilterKeepsOnlyMatches(s: seq<Event>, c: Criteria, clock: Clock, i: int)
    requires 0 <= i < |Filter(s, c, clock)|
    ensures var x := Filter(s, c, clock)[i];
      (c.camera != AllCameras ==> x.cameraName == c.camera) &&
      (c.timeFrame == Today ==> x.day == clock.today) &&
      (c.timeFrame == Week ==> x.timestamp >= clock.weekAgo) &&
      (c.timeFrame == Month ==> x.timestamp >= clock.monthAgo) &&
      (Lower(c.search) != [] ==> Contains(Lower(SearchText(x)), Lower(c.search)))
  {
    assert Filter(s, c, clock)[i] in Filter(s, c, clock);
  }

  /** A search term found in the camera name alone always lets the event through the search. */
  lemma SearchFindsCameraName(e: Event, search: string)
    requires Contains(Lower(e.cameraName), Lower(search))
    ensures SearchPasses(e, search)
  {
    LowerConcat(e.cameraName, " " + e.formattedTime.GetOr(""));
    assert SearchText(e) == e.cameraName + (" " + e.formattedTime.GetOr(""));
    ContainsExtend(Lower(e.cameraName), Lower(" " + e.formattedTime.GetOr("")), Lower(search));
  }

  /** The filter of `updateStats`: the events whose calendar date is `day`, in order. */
  function OnDay(s: seq<Event>, day: int): (r: seq<Event>)
    ensures |r| <= |s|
    ensures forall x :: x in r <==> x in s && x.day == day
  {
    if s == [] then []
    else if s[0].day == day then [s[0]] + OnDay(s[1..], day)
    else OnDay(s[1..], day)
  }

  /** The two figures shown on the page. */
  datatype Stats = Stats(total: nat, today: nat)

  /** `updateStats`: both figures are taken over the whole collection, whatever the filter says. */
  function ComputeStats(s: seq<Event>, clock: Clock): (st: Stats)
    ensures st.today <= st.total == |s|
  {
    Stats(|s|, |OnDay(s, clock.today)|)
  }

  /** The "today" figure counts exactly what the `today` time window alone would show. */
  lemma {:induction false} TodayCountIsTodayWindow(s: seq<Event>, clock: Clock)
    ensures OnDay(s, clock.today) == Filter(s, Criteria("", AllCameras, Today), clock)
    ensures ComputeStats(s, clock).today == |Filter(s, Criteria("", AllCameras, Today), clock)|
  {
    if s != [] {
      TodayCountIsTodayWindow(s[1..], clock);
    }
  }

  /** Each event is counted as today's as often as it occurs when it is dated today, and never otherwise. */
  lemma OnDayCount(s: seq<Event>, day: int, x: Event)
    ensures multiset(OnDay(s, day))[x] == if x.day == day then multiset(s)[x] else 0
  {
    var clock := Clock(day, 0, 0);
    TodayCountIsTodayWindow(s, clock);
    FilterMultiplicity(s, Criteria("", AllCameras, Today), clock, x);
    assert Lower("") == [];
  }
}
