/** The values the schedule views work on: calendar dates, times of day,
    timestamps, fare records, schedule rows and event records. */
module Entities {
  import opened Wrappers

  /** A calendar date, as a day ordinal (days since some fixed epoch). */
  type Date = int

  const MinutesPerDay: int := 1440

  /** A time of day as parsed from `%H:%M`: minutes since midnight. */
  type Time = m: int | 0 <= m < MinutesPerDay

  /** A point in time with minute resolution: minutes since the epoch's midnight. */
  type Timestamp = int

  /** `datetime.combine(d, t)`: the moment at time `t` on day `d`. */
  function Combine(d: Date, t: Time): Timestamp
  {
    d * MinutesPerDay + t
  }

  /** The calendar date of a timestamp (`ts.date()`). */
  function DayOf(ts: Timestamp): Date
  {
    ts / MinutesPerDay
  }

  /** The time of day of a timestamp (`ts.time()`). */
  function TimeOf(ts: Timestamp): Time
  {
    ts % MinutesPerDay
  }

  /** Splitting a combined timestamp gives back its date and its time. */
  lemma CombineSplits(d: Date, t: Time)
    ensures DayOf(Combine(d, t)) == d && TimeOf(Combine(d, t)) == t
  {
  }

  /** Combined timestamps order lexicographically: first by date, then by time of day. */
  lemma CombineOrder(d1: Date, t1: Time, d2: Date, t2: Time)
    ensures Combine(d1, t1) < Combine(d2, t2) <==> d1 < d2 || (d1 == d2 && t1 < t2)
  {
    if d1 < d2 {
      assert d1 * MinutesPerDay + MinutesPerDay <= d2 * MinutesPerDay;
    } else if d2 < d1 {
      assert d2 * MinutesPerDay + MinutesPerDay <= d1 * MinutesPerDay;
    }
  }

  /** A fare record as the data-access layer returns it. The three optional
      fields are the outcome of reading one field of the fare's description
      blob and parsing it: `date` with `%Y/%m/%d`, `departure` with `%H:%M`,
      `duration` with `int`; None when the field is missing or does not parse. */
  datatype Fare = Fare(
    id: int,
    name: string,
    description: string,
    code: string,
    date: Option<Date>,
    departure: Option<Time>,
    duration: Option<int>)

  /** A schedule row: the schedule's id and its calendar date. */
  datatype ScheduleRow = ScheduleRow(id: int, date: Date)

  /** An event record as a timetable holds it. `summary` is the `abstract` key
      and `fare` the fare code that only partner-program events carry. */
  datatype Event = Event(
    id: int,
    scheduleId: Option<int>,
    time: Timestamp,
    duration: int,
    name: string,
    summary: string,
    fare: Option<string>,
    tags: set<string>,
    tracks: seq<string>)

  /** A `TimeTable2`, seen as the sequence of its events; `addEvents` appends. */
  type Timetable = seq<Event>

  /** One element of the builder's result: a schedule id and its timetable. */
  type Pair = (int, Timetable)
}
