/** The one record the dashboard handles: a camera-triggered event. */
module Events {
  import opened Wrappers

  /**
   * An event as stored in `dashboard_events`.  `timestamp` is the instant
   * (milliseconds) that `new Date(event.timestamp)` yields, and `day` the
   * calendar date that `toDateString()` names, both abstracted to integers.
   * `formattedTime` is the optional display string; `imageData` is opaque.
   */
  datatype Event = Event(
    id: string,
    cameraName: string,
    timestamp: int,
    day: int,
    formattedTime: Option<string>,
    imageData: string)

  /** Some event of `s` has identifier `id`. */
  predicate HasId(s: seq<Event>, id: string) {
    exists i :: 0 <= i < |s| && s[i].id == id
  }

  /** `k` is what `s.findIndex(e => e.id === id)` returns when it finds something. */
  predicate IsFirstIndex(s: seq<Event>, id: string, k: int) {
    0 <= k < |s| && s[k].id == id && forall j :: 0 <= j < k ==> s[j].id != id
  }

  /** No two events of `s` share an identifier. */
  predicate UniqueIds(s: seq<Event>) {
    forall i, j :: 0 <= i < j < |s| ==> s[i].id != s[j].id
  }
}
