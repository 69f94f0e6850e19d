/**
 * The page's module-level state and the functions of the page that update
 * it.  The values of the page's inputs, the clock and the outcome of the
 * storage write are passed in; what the page displays is reduced to the
 * two figures and the ordered list.
 */
module DashboardPage {
  import opened Wrappers
  import opened Events
  import opened EventStore
  import opened FilterEngine
  import opened Sorting

  /** What the storage key `dashboard_events` holds as `loadEvents` reads it: nothing, text that does not parse, or a list. */
  datatype Slot = Absent | Malformed | Stored(events: seq<Event>)

  /** The collection after `loadEvents`: kept when nothing is stored, emptied when the text does not parse. */
  function Loaded(slot: Slot, current: seq<Event>): seq<Event> {
    match slot
    case Absent => current
    case Malformed => []
    case Stored(s) => s
  }

  /** The event read from the page address, with its display time filled in. */
  function Stamp(e: Event, formattedTime: string): Event {
    e.(formattedTime := Some(formattedTime))
  }

  class Dashboard {
    /** Every event received, in arrival order of their identifiers. */
    var allEvents: seq<Event>
    /** The events currently listed on the page. */
    var filteredEvents: array<Event>
    /** The figures in the `total-events` and `today-events` elements. */
    var totalShown: nat
    var todayShown: nat
    /** The content of the storage key `dashboard_events`; it outlives the page. */
    var storage: Slot

    /** A freshly opened page: both lists empty, storage as an earlier visit left it. */
    constructor (stored: Slot)
      ensures allEvents == [] && filteredEvents.Length == 0
      ensures totalShown == 0 && todayShown == 0 && storage == stored
    {
      allEvents := [];
      filteredEvents := new Event[0];
      totalShown, todayShown := 0, 0;
      storage := stored;
    }

    /**
     * `addEvent`: upsert by identifier, then write the collection back; only
     * when the write succeeds (`writeOk`) are the figures and the list refreshed.
     */
    method AddEvent(e: Event, writeOk: bool, c: Criteria, clock: Clock)
      modifies this
      ensures allEvents == Upsert(old(allEvents), e)
      ensures !HasId(old(allEvents), e.id) ==> allEvents == old(allEvents) + [e]
      ensures forall k :: IsFirstIndex(old(allEvents), e.id, k) ==> allEvents == old(allEvents)[k := e]
      ensures UniqueIds(old(allEvents)) ==> UniqueIds(allEvents)
      ensures UniqueIds(old(allEvents)) ==>
        forall i :: 0 <= i < |allEvents| && allEvents[i].id == e.id ==> allEvents[i] == e
      ensures writeOk ==> storage == Stored(allEvents)
      ensures writeOk ==> totalShown == |allEvents| && todayShown == |OnDay(allEvents, clock.today)|
      ensures writeOk ==> fresh(filteredEvents)
      ensures writeOk ==> multiset(filteredEvents[..]) == multiset(Filter(allEvents, c, clock))
      ensures writeOk ==> NewestFirst(filteredEvents[..])
      ensures !writeOk ==> storage == old(storage)
      ensures !writeOk ==> totalShown == old(totalShown) && todayShown == old(todayShown)
      ensures !writeOk ==> filteredEvents == old(filteredEvents) && filteredEvents[..] == old(filteredEvents[..])
    {
      var k := FindIndex(allEvents, e.id);
      if k == -1 {
        UpsertAbsent(allEvents, e);
        allEvents := allEvents + [e];
      } else {
        UpsertPresent(allEvents, e, k);
        allEvents := allEvents[k := e];
      }
      forall k' | IsFirstIndex(old(allEvents), e.id, k') ensures allEvents == old(allEvents)[k' := e] {
        UpsertPresent(old(allEvents), e, k');
      }
      if UniqueIds(old(allEvents)) {
        UpsertKeepsUnique(old(allEvents), e);
      }
      if writeOk {
        storage := Stored(allEvents);
        UpdateStats(clock);
        ApplyFilters(c, clock);
      }
    }

    /** `checkUrlForEventId`, once the stored event has been read: stamp its display time and add it. */
    method ReceiveEvent(parsed: Option<Event>, formattedTime: string, writeOk: bool, c: Criteria, clock: Clock)
      modifies this
      ensures parsed.None? ==> allEvents == old(allEvents) && storage == old(storage)
      ensures parsed.None? ==> totalShown == old(totalShown) && todayShown == old(todayShown)
      ensures parsed.None? ==> filteredEvents == old(filteredEvents) && filteredEvents[..] == old(filteredEvents[..])
      ensures parsed.Some? ==> allEvents == Upsert(old(allEvents), Stamp(parsed.value, formattedTime))
      ensures parsed.Some? && writeOk ==> storage == Stored(allEvents)
      ensures parsed.Some? && writeOk ==> totalShown == |allEvents| && todayShown == |OnDay(allEvents, clock.today)|
      ensures parsed.Some? && writeOk ==> fresh(filteredEvents)
      ensures parsed.Some? && writeOk ==> multiset(filteredEvents[..]) == multiset(Filter(allEvents, c, clock))
      ensures parsed.Some? && writeOk ==> NewestFirst(filteredEvents[..])
      ensures parsed.Some? && !writeOk ==> storage == old(storage)
      ensures parsed.Some? && !writeOk ==> totalShown == old(totalShown) && todayShown == old(todayShown)
      ensures parsed.Some? && !writeOk ==> filteredEvents == old(filteredEvents) && filteredEvents[..] == old(filteredEvents[..])
    {
      if parsed.Some? {
        AddEvent(Stamp(parsed.value, formattedTime), writeOk, c, clock);
      }
    }

    /** `loadEvents`: take the stored list, or empty the collection when the stored text does not parse. */
    method LoadEvents(c: Criteria, clock: Clock)
      modifies this
      ensures storage == old(storage)
      ensures allEvents == Loaded(storage, old(allEvents))
      ensures storage.Stored? ==> totalShown == |allEvents| && todayShown == |OnDay(allEvents, clock.today)|
      ensures storage.Stored? ==> fresh(filteredEvents)
      ensures storage.Stored? ==> multiset(filteredEvents[..]) == multiset(Filter(allEvents, c, clock))
      ensures storage.Stored? ==> NewestFirst(filteredEvents[..])
      ensures !storage.Stored? ==> totalShown == old(totalShown) && todayShown == old(todayShown)
      ensures !storage.Stored? ==> filteredEvents == old(filteredEvents) && filteredEvents[..] == old(filteredEvents[..])
    {
      match storage
      case Absent =>
      case Malformed =>
        allEvents := [];
      case Stored(s) =>
        allEvents := s;
        UpdateStats(clock);
        ApplyFilters(c, clock);
    }

    /** `updateStats`: both figures come from the whole collection, not from the filtered list. */
    method UpdateStats(clock: Clock)
      modifies this`totalShown, this`todayShown
      ensures totalShown == ComputeStats(allEvents, clock).total == |allEvents|
      ensures todayShown == ComputeStats(allEvents, clock).today
      ensures todayShown == |Filter(allEvents, Criteria("", AllCameras, Today), clock)|
    {
      var st := ComputeStats(allEvents, clock);
      TodayCountIsTodayWindow(allEvents, clock);
      totalShown, todayShown := st.total, st.today;
    }

    /** `applyFilters`: a fresh list of the matching events, then rendered newest first; the collection is untouched. */
    method ApplyFilters(c: Criteria, clock: Clock)
      modifies this`filteredEvents
      ensures allEvents == old(allEvents)
      ensures fresh(filteredEvents)
      ensures multiset(filteredEvents[..]) == multiset(Filter(allEvents, c, clock))
      ensures NewestFirst(filteredEvents[..])
      ensures forall i :: 0 <= i < filteredEvents.Length ==> Matches(filteredEvents[i], c, clock)
    {
      var r := Filter(allEvents, c, clock);
      filteredEvents := new Event[|r|](i requires 0 <= i < |r| => r[i]);
      assert filteredEvents[..] == r;
      RenderEvents();
      forall i | 0 <= i < filteredEvents.Length ensures Matches(filteredEvents[i], c, clock) {
        assert filteredEvents[..][i] == filteredEvents[i];
        assert filteredEvents[i] in multiset(r);
      }
    }

    /** The ordering step of `renderEvents`: an empty list is left as it is, any other is sorted newest first. */
    method RenderEvents()
      modifies filteredEvents
      ensures multiset(filteredEvents[..]) == multiset(old(filteredEvents[..]))
      ensures NewestFirst(filteredEvents[..])
    {
      if filteredEvents.Length != 0 {
        SortNewestFirst(filteredEvents);
      }
    }
  }

  /**
   * The page's start-up as written: the event named in the address is added
   * before the stored list is read.  A successful write therefore replaces
   * whatever was stored by the one new event, and loading then reads it back.
   */
  method OpenPage(stored: Slot, urlEvent: Option<Event>, formattedTime: string, writeOk: bool,
                  c: Criteria, clock: Clock) returns (d: Dashboard)
    ensures fresh(d)
    ensures urlEvent.Some? && writeOk ==> d.storage == Stored([Stamp(urlEvent.value, formattedTime)])
    ensures !(urlEvent.Some? && writeOk) ==> d.storage == stored
    ensures d.allEvents == Loaded(d.storage, if urlEvent.Some? then [Stamp(urlEvent.value, formattedTime)] else [])
  {
    d := new Dashboard(stored);
    d.ReceiveEvent(urlEvent, formattedTime, writeOk, c, clock);
    d.LoadEvents(c, clock);
  }

  /** One stored event and one event in the address: after start-up the stored event is gone, from the page and from storage. */
  method UrlImportDropsHistory() returns (d: Dashboard, earlier: Event)
    ensures earlier !in d.allEvents
    ensures d.storage.Stored? && earlier !in d.storage.events
  {
    earlier := Event("a", "Door", 0, 0, None, "");
    var incoming := Event("b", "Door", 1, 0, None, "");
    d := OpenPage(Stored([earlier]), Some(incoming), "t", true, Criteria("", AllCameras, AllTime), Clock(0, 0, 0));
  }

  /**
   * Start-up with the two steps in the evidently intended order: load the
   * stored list first, then add the event from the address to it, so that
   * no event with another identifier is lost.
   */
  method OpenPageLoadFirst(stored: Slot, urlEvent: Option<Event>, formattedTime: string, writeOk: bool,
                           c: Criteria, clock: Clock) returns (d: Dashboard)
    ensures fresh(d)
    ensures urlEvent.None? ==> d.storage == stored && d.allEvents == Loaded(stored, [])
    ensures urlEvent.Some? ==> d.allEvents == Upsert(Loaded(stored, []), Stamp(urlEvent.value, formattedTime))
    ensures urlEvent.Some? && writeOk ==> d.storage == Stored(d.allEvents)
    ensures urlEvent.Some? && writeOk ==>
      forall x :: x in Loaded(stored, []) && x.id != urlEvent.value.id ==> x in d.storage.events
  {
    d := new Dashboard(stored);
    d.LoadEvents(c, clock);
    d.ReceiveEvent(urlEvent, formattedTime, writeOk, c, clock);
    if urlEvent.Some? {
      forall x | x in Loaded(stored, []) && x.id != urlEvent.value.id
        ensures x in Upsert(Loaded(stored, []), Stamp(urlEvent.value, formattedTime))
      {
        UpsertKeepsOthers(Loaded(stored, []), Stamp(urlEvent.value, formattedTime), x);
      }
    }
  }
}
