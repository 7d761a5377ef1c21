/** `_build_timetables`: one (schedule id, timetable) pair per schedule row,
    partner-program events merged into the matching or a newly opened
    timetable, and the pairs sorted by the time of their first event. */
module Timetables {
  import opened Wrappers
  import opened Entities
  import opened Sequences
  import opened Ordering

  /** The data-access collaborators the builder calls. */
  datatype Store = Store(
    /** `TimeTable2.fromSchedule(sid)`: the timetable of all the schedule's events. */
    fromSchedule: int -> Timetable,
    /** `TimeTable2.fromEvents(sid, ids)`: the timetable of just those events. */
    fromEvents: (int, seq<int>) -> Timetable,
    /** `Schedule.objects.get(date=d).id`, for the dates that have a schedule. */
    scheduleByDate: map<Date, int>)

  /** The exceptions that escape the builder. */
  datatype BuildError =
    | /** KeyError: an explicit event-id selection has no entry for this schedule. */
      MissingEventIds(sid: int)
    | /** IndexError: the sort key of this schedule's empty timetable. */
      EmptyTimetable(sid: int)

  /** An explicit selection: schedule id to the ids of the events to show. */
  type Selection = map<int, seq<int>>

  /** `schedules and not events`: build every timetable from its whole schedule. */
  predicate WholeSchedules(schedules: seq<ScheduleRow>, events: Option<Selection>)
  {
    schedules != [] && (events.None? || events.value == map[])
  }

  /** The selection the building loop uses: none for whole schedules. */
  function SelectionOf(schedules: seq<ScheduleRow>, events: Option<Selection>): Option<Selection>
  {
    if WholeSchedules(schedules, events) then None else events
  }

  /** The timetable built for schedule `sid`. */
  function Initial(sid: int, selection: Option<Selection>, store: Store): Timetable
    requires selection.Some? ==> sid in selection.value
  {
    if selection.None? then store.fromSchedule(sid) else store.fromEvents(sid, selection.value[sid])
  }

  /** The pairs built for `rows`, or the KeyError of the first row whose id
      the selection lacks. */
  function LoadRows(rows: seq<ScheduleRow>, selection: Option<Selection>, store: Store)
    : (r: Result<seq<Pair>, BuildError>)
    ensures r.Success? <==> selection.None? || forall i :: 0 <= i < |rows| ==> rows[i].id in selection.value
    ensures r.Success? ==> (|r.value| == |rows| &&
      forall i :: 0 <= i < |rows| ==> r.value[i] == (rows[i].id, Initial(rows[i].id, selection, store)))
    ensures r.Failure? ==> (selection.Some? &&
      exists i :: 0 <= i < |rows| && rows[i].id !in selection.value && r.error == MissingEventIds(rows[i].id)
        && forall j :: 0 <= j < i ==> rows[j].id in selection.value)
  {
    if rows == [] then Success([])
    else
      var n := |rows| - 1;
      var sid := rows[n].id;
      assert forall i :: 0 <= i < n ==> rows[..n][i] == rows[i];
      match LoadRows(rows[..n], selection, store)
      case Failure(e) => Failure(e)
      case Success(tts) =>
        if selection.Some? && sid !in selection.value then Failure(MissingEventIds(sid))
        else Success(tts + [(sid, Initial(sid, selection, store))])
  }

  /** Lines 59-67: one pair per schedule row, in row order. */
  method LoadTimetables(schedules: seq<ScheduleRow>, events: Option<Selection>, store: Store)
    returns (r: Result<seq<Pair>, BuildError>)
    ensures r == LoadRows(schedules, SelectionOf(schedules, events), store)
  {
    var tts: seq<Pair> := [];
    var i := 0;
    if WholeSchedules(schedules, events) {
      while i < |schedules|
        invariant 0 <= i <= |schedules|
        invariant LoadRows(schedules[..i], None, store) == Success(tts)
      {
        var sid := schedules[i].id;
        assert schedules[..i + 1][..i] == schedules[..i];
        tts := tts + [(sid, store.fromSchedule(sid))];
        i := i + 1;
      }
    } else {
      while i < |schedules|
        invariant 0 <= i <= |schedules|
        invariant LoadRows(schedules[..i], events, store) == Success(tts)
      {
        var sid := schedules[i].id;
        assert schedules[..i + 1][..i] == schedules[..i];
        if sid !in events.value {
          r := Failure(MissingEventIds(sid));
          assert forall j :: 0 <= j < i ==> schedules[..i][j] == schedules[j];
          return;
        }
        tts := tts + [(sid, store.fromEvents(sid, events.value[sid]))];
        i := i + 1;
      }
    }
    assert schedules[..i] == schedules;
    r := Success(tts);
  }

  /** The position of the first schedule row dated `d`, if any. */
  function FirstMatch(schedules: seq<ScheduleRow>, d: Date): (r: Option<nat>)
    ensures r.Some? ==> (r.value < |schedules| && schedules[r.value].date == d
      && forall j :: 0 <= j < r.value ==> schedules[j].date != d)
    ensures r.None? ==> forall j :: 0 <= j < |schedules| ==> schedules[j].date != d
  {
    if schedules == [] then None
    else if schedules[0].date == d then Some(0)
    else match FirstMatch(schedules[1..], d)
      case None => None
      case Some(i) => Some(i + 1)
  }

  /** Lines 71-74: the search loop that stops at the first row dated `d`. */
  method FindSchedule(schedules: seq<ScheduleRow>, d: Date) returns (ix: Option<nat>)
    ensures ix == FirstMatch(schedules, d)
  {
    var i := 0;
    while i < |schedules|
      invariant 0 <= i <= |schedules|
      invariant forall j :: 0 <= j < i ==> schedules[j].date != d
    {
      if schedules[i].date == d {
        return Some(i);
      }
      i := i + 1;
    }
    return None;
  }

  /** Lines 83-85: each event in turn gets the receiving schedule's id as its
      `schedule_id` and is appended to the timetable by `addEvents([e])`. */
  method AddEvents(tt: Timetable, evts: seq<Event>, sid: int) returns (r: Timetable)
    ensures r == tt + Stamp(evts, sid)
  {
    r := tt;
    var j := 0;
    while j < |evts|
      invariant 0 <= j <= |evts|
      invariant r == tt + Stamp(evts[..j], sid)
    {
      assert Stamp(evts[..j + 1], sid) == Stamp(evts[..j], sid) + [evts[j].(scheduleId := Some(sid))];
      r := r + [evts[j].(scheduleId := Some(sid))];
      j := j + 1;
    }
    assert evts[..j] == evts;
  }

  /** The events of a date after `e['schedule_id'] = sid` was set on each. */
  function Stamp(evts: seq<Event>, sid: int): seq<Event>
  {
    seq(|evts|, k requires 0 <= k < |evts| => evts[k].(scheduleId := Some(sid)))
  }

  /** The date matches no listed row but has a persisted schedule. */
  predicate Adopted(schedules: seq<ScheduleRow>, store: Store, d: Date)
  {
    FirstMatch(schedules, d).None? && d in store.scheduleByDate
  }

  /** The pair opened for an adopted date: the persisted schedule's id, and
      `fromEvents(sid, [])` followed by the date's stamped events. */
  function NewPair(partner: map<Date, seq<Event>>, store: Store, d: Date): Pair
    requires d in partner && d in store.scheduleByDate
  {
    var sid := store.scheduleByDate[d];
    (sid, store.fromEvents(sid, []) + Stamp(partner[d], sid))
  }

  /** One iteration of the loop at line 70: merge the events of date `d`. */
  function MergeDate(schedules: seq<ScheduleRow>, tts: seq<Pair>, d: Date, evts: seq<Event>, store: Store)
    : (r: seq<Pair>)
    requires |schedules| <= |tts|
    ensures |tts| <= |r|
  {
    match FirstMatch(schedules, d)
    case Some(ix) => tts[ix := (tts[ix].0, tts[ix].1 + Stamp(evts, tts[ix].0))]
    case None =>
      if d in store.scheduleByDate then
        var sid := store.scheduleByDate[d];
        tts + [(sid, store.fromEvents(sid, []) + Stamp(evts, sid))]
      else tts
  }

  /** The pairs after the dates of `order` were merged, in that order. */
  function Merged(schedules: seq<ScheduleRow>, built: seq<Pair>, partner: map<Date, seq<Event>>,
                  order: seq<Date>, store: Store): (r: seq<Pair>)
    requires |schedules| <= |built|
    requires forall k :: 0 <= k < |order| ==> order[k] in partner
    ensures |built| <= |r|
  {
    if order == [] then built
    else
      var n := |order| - 1;
      MergeDate(schedules, Merged(schedules, built, partner, order[..n], store), order[n], partner[order[n]], store)
  }

  /** Lines 69-85: merge every partner date in the iteration order `order`.
      Each date's events get the receiving schedule's id and are appended to
      the first listed schedule with that date, or else to a new pair for the
      persisted schedule of that date, or else are dropped. */
  method MergePartner(schedules: seq<ScheduleRow>, built: seq<Pair>, partner: map<Date, seq<Event>>,
                      order: seq<Date>, store: Store) returns (tts: seq<Pair>)
    requires |schedules| <= |built|
    requires forall k :: 0 <= k < |order| ==> order[k] in partner
    ensures tts == Merged(schedules, built, partner, order, store)
  {
    tts := built;
    var k := 0;
    while k < |order|
      invariant 0 <= k <= |order|
      invariant |schedules| <= |tts|
      invariant tts == Merged(schedules, built, partner, order[..k], store)
    {
      assert order[..k + 1][..k] == order[..k];
      var date := order[k];
      var evts := partner[date];
      var ix := FindSchedule(schedules, date);
      var sid: int;
      var tt: Timetable;
      var pos: nat;
      if ix.Some? {
        pos := ix.value;
        sid, tt := tts[pos].0, tts[pos].1;
      } else {
        if date !in store.scheduleByDate {
          k := k + 1;
          continue;
        }
        sid := store.scheduleByDate[date];
        tt := store.fromEvents(sid, []);
        tts := tts + [(sid, tt)];
        pos := |tts| - 1;
      }
      tt := AddEvents(tt, evts, sid);
      tts := tts[pos := (sid, tt)];
      k := k + 1;
    }
    assert order[..k] == order;
  }

  /** The position of the first empty timetable, if any. */
  function FirstEmpty(s: seq<Pair>): (r: Option<nat>)
    ensures r.Some? ==> r.value < |s| && s[r.value].1 == [] && forall j :: 0 <= j < r.value ==> s[j].1 != []
    ensures r.None? <==> AllNonEmpty(s)
  {
    if s == [] then None
    else if s[0].1 == [] then Some(0)
    else match FirstEmpty(s[1..])
      case None => None
      case Some(i) => Some(i + 1)
  }

  /** The whole of `_build_timetables`. */
  function BuiltTimetables(schedules: seq<ScheduleRow>, events: Option<Selection>,
                           partner: map<Date, seq<Event>>, order: seq<Date>, store: Store,
                           pick: Timetable -> nat): Result<seq<Pair>, BuildError>
    requires forall k :: 0 <= k < |order| ==> order[k] in partner
  {
    match LoadRows(schedules, SelectionOf(schedules, events), store)
    case Failure(e) => Failure(e)
    case Success(built) =>
      var merged := Merged(schedules, built, partner, order, store);
      match FirstEmpty(merged)
      case Some(i) => Failure(EmptyTimetable(merged[i].0))
      case None => Success(SortByFirstEvent(merged, pick))
  }

  /** Without partner dates there is nothing to merge. */
  lemma NoKeysNoDates(order: seq<Date>, partner: map<Date, seq<Event>>)
    requires forall k :: 0 <= k < |order| ==> order[k] in partner
    ensures partner == map[] ==> order == []
  {
    if order != [] {
      assert order[0] in partner;
    }
  }

  /** `order` lists every key of `partner` exactly once: the order in which
      `partner.items()` happens to visit them. */
  predicate EnumeratesKeys(order: seq<Date>, partner: map<Date, seq<Event>>)
  {
    && Distinct(order)
    && (forall k :: 0 <= k < |order| ==> order[k] in partner)
    && (forall d :: d in partner ==> d in order)
  }

  /** `_build_timetables(schedules, events, partner)`: the pairs sorted by
      their first event's time, every timetable non-empty; or the exception
      the source raises. */
  method BuildTimetables(schedules: seq<ScheduleRow>, events: Option<Selection>,
                         partner: map<Date, seq<Event>>, order: seq<Date>, store: Store,
                         pick: Timetable -> nat) returns (r: Result<seq<Pair>, BuildError>)
    requires EnumeratesKeys(order, partner)
    ensures r == BuiltTimetables(schedules, events, partner, order, store, pick)
    ensures r.Success? ==> (AllNonEmpty(r.value)
      && forall i, j :: 0 <= i < j < |r.value| ==> FirstEventTime(r.value[i], pick) <= FirstEventTime(r.value[j], pick))
  {
    var loaded := LoadTimetables(schedules, events, store);
    if loaded.Failure? {
      return Failure(loaded.error);
    }
    var tts := loaded.value;
    if partner != map[] {
      tts := MergePartner(schedules, tts, partner, order, store);
    } else {
      NoKeysNoDates(order, partner);
    }
    var empty := FirstEmpty(tts);
    if empty.Some? {
      return Failure(EmptyTimetable(tts[empty.value].0));
    }
    SortByFirstEventSorts(tts, pick);
    r := Success(SortByFirstEvent(tts, pick));
  }
}
