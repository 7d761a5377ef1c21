# Partner-program timetables of the PyCon Italia site

This project models the two helpers that assemble the conference timetables in
`p3/views/schedule.py` of the PyCon Italia site (pycon_site):

- `_partner_as_event(fares)` turns the partner-program fares into synthetic
  events grouped by calendar date. A fare whose `date`, `departure` or
  `duration` field cannot be read and parsed is skipped. Every other fare
  yields one event. The event's id is the negated fare id, it has no
  schedule, it carries the `partner-program` tag and the `partner0` track,
  and its time is the fare's date combined with its departure time.
- `_build_timetables(schedules, events, partner)` first builds one
  `(schedule id, timetable)` pair per schedule row. Each timetable comes from
  the whole schedule or from an explicit list of event ids per schedule. Then
  the partner events are merged in, date by date. A date's events go to the
  first listed schedule with that date. Failing that, they go to a new pair
  for the persisted schedule of that date. Failing both, they are dropped.
  Every merged event is stamped with the receiving schedule's id. Finally the
  pairs are sorted by the time of an event taken from each timetable.

The modules follow that structure:

| file | module | contents |
|---|---|---|
| `wrappers.dfy` | `Wrappers` | `Option` and `Result` |
| `entities.dfy` | `Entities` | dates, times of day, timestamps, fares, schedule rows, events, timetables, pairs |
| `sequences.dfy` | `Sequences` | facts about duplicate-free sequences and permutations |
| `partner_program.dfy` | `PartnerProgram` | `_partner_as_event` and its properties |
| `ordering.dfy` | `Ordering` | the sort key and Python's stable `list.sort` |
| `timetables.dfy` | `Timetables` | `_build_timetables`: loading, the schedule search, the merge, the sort |
| `merge_facts.dfy` | `MergeFacts` | what the merge produces, independent of the date visiting order |
| `build_facts.dfy` | `BuildFacts` | what the builder returns as a whole |

Modelling choices:

- A `TimeTable2` is the sequence of its events, and `addEvents` appends. The
  list `tts` is a local sequence that the methods reassign.
- `TimeTable2.fromSchedule`, `TimeTable2.fromEvents` and
  `Schedule.objects.get(date=...)` are the fields of a `Store` value. The
  first two are functions; the lookup is a finite map from date to schedule
  id, and a date outside the map is `Schedule.DoesNotExist`.
- Reading a fare's blob field and parsing it is an `Option` field of `Fare`:
  `None` whenever `fare_blob` or `strptime`/`int` would raise.
- A date is a day number and a time of day is a minute in `0..1439`. A
  timestamp is `day * 1440 + minute`, which orders exactly like Python's
  `datetime` (`Entities.CombineOrder`).
- `partner.items()` visits the dates in an unspecified order. The model takes
  that order as a parameter `order` that lists every key once, and proves
  the facts that do not depend on it.
- The sort key `tt.events.values()[0][0]['time']` depends on the unseen
  internals of `TimeTable2`. It is the time of the event at position
  `pick(tt) % |tt|`, for an arbitrary `pick`. An empty timetable has no such
  event: the source raises `IndexError` there, and the model fails with
  `EmptyTimetable`.
- `events[row['id']]` raises `KeyError` when the explicit selection lacks a
  listed schedule. The model fails with `MissingEventIds`. This treats
  `events` as a plain dict, as the docstring describes it. Its one caller,
  `my_schedule` (lines 221 and 240-241), passes a `defaultdict(list)` and lists
  exactly its keys as schedules, so that caller never takes this path.
- The key is the whole timestamp, so pairs are ordered by date first and time
  of day second (`BuildFacts.EarlierDaySortsFirst`). A timetable whose key is
  2024-05-01 09:00 therefore comes before one whose key is 2024-05-02 08:00.

## Model

| member | source | states |
|---|---|---|
| Entities.CombineSplits | p3/views/schedule.py:32 | `datetime.combine(d, t)` keeps its date and its time of day: both can be read back from the timestamp |
| Entities.CombineOrder | p3/views/schedule.py:32 | timestamps compare like `datetime`s: by date first, then by time of day |
| PartnerProgram.SourceIndices | p3/views/schedule.py:17-34 | the events under a date come one to one from the fares that parse with that date, all of them, in the input order of the fares |
| PartnerProgram.PartnerAsEvents | p3/views/schedule.py:14-35 | the grouping loop returns a map whose keys are exactly the dates with at least one event, each mapped to that date's events in fare order |
| PartnerProgram.KeysAreParsedDates | p3/views/schedule.py:16-35 | a date has a non-empty list if and only if some fare parses with that date |
| PartnerProgram.UnparsedFareIsSkipped | p3/views/schedule.py:18-23 | removing a fare that does not parse changes no date's list: it is skipped without error |
| PartnerProgram.SyntheticEventFields | p3/views/schedule.py:24-33 | each synthetic event comes from a fare parsing with its date; its id is the negated fare id, its time is date and departure combined, its duration and fare code are the fare's, it has no schedule, the partner tag and the partner track |
| PartnerProgram.SyntheticIdsAreNegative | p3/views/schedule.py:27 | with positive fare ids, every synthetic id is negative and differs from every real (positive) event id |
| PartnerProgram.TotalOnSnoc | p3/views/schedule.py:17-24 | one more fare adds one event, under its own date, exactly when it parses |
| PartnerProgram.TotalIsParsedCount | p3/views/schedule.py:17-35 | the events summed over all dates equal the number of fares that parse |
| PartnerProgram.TotalOfNothing | p3/views/schedule.py:16 | no fares yield no events |
| Ordering.KeyIsAnEventTime | p3/views/schedule.py:86-91 | the sort key of a timetable is the time of one of its own events |
| Ordering.Insert | p3/views/schedule.py:92 | one insertion step of the sort adds exactly the one element, and puts it in front only when its key is strictly smaller than the first key |
| Ordering.InsertKeepsSorted | p3/views/schedule.py:92 | an insertion step keeps the list sorted |
| Ordering.Sort | p3/views/schedule.py:92 | `list.sort` returns a sorted permutation of its input |
| Ordering.SortIsStable | p3/views/schedule.py:92 | the sort keeps the input order of the elements that share a key |
| Ordering.SortByFirstEventSorts | p3/views/schedule.py:86-93 | the sorted pairs are a permutation of the input pairs, all non-empty, non-decreasing by the sort key |
| Ordering.SortByFirstEventIsStable | p3/views/schedule.py:92 | pairs with equal keys keep their relative order |
| Timetables.LoadRows | p3/views/schedule.py:59-67 | one pair per row, in row order, with the row's id and the whole schedule or the selected events; or `KeyError` for the first row missing from the selection, exactly when one is missing |
| Timetables.LoadTimetables | p3/views/schedule.py:59-67 | the two building loops compute `LoadRows` with the selection that `schedules and not events` decides |
| Timetables.FirstMatch | p3/views/schedule.py:71-74 | the position of the first row with the date, or none when no row has it |
| Timetables.FindSchedule | p3/views/schedule.py:71-74 | the search loop with `break` finds that first matching row |
| Timetables.AddEvents | p3/views/schedule.py:83-85 | the timetable afterwards is the old one followed by the date's events, each stamped with the receiving schedule id |
| Timetables.MergeDate | p3/views/schedule.py:70-85 | one date's merge never removes a pair (its effect is stated by `MergeFacts.MergeStep`) |
| Timetables.Merged | p3/views/schedule.py:69-85 | the merge of all dates never removes a pair (its effect is stated by `MergeFacts.MergedClosedForm`) |
| Timetables.MergePartner | p3/views/schedule.py:69-85 | the merge loop, with its inner search and stamping loops, computes `Merged` for the visiting order |
| Timetables.FirstEmpty | p3/views/schedule.py:86-92 | the first pair whose key cannot be computed; none exactly when every timetable is non-empty |
| Timetables.NoKeysNoDates | p3/views/schedule.py:69 | without partner dates the merge loop has nothing to visit |
| Timetables.BuildTimetables | p3/views/schedule.py:37-93 | the builder returns `BuiltTimetables`: non-empty pairs sorted by key, or the exception the source raises |
| MergeFacts.MergeStep | p3/views/schedule.py:70-85 | one date's merge extends the first listed row of that date, or else appends the new pair of an adopted date, or else changes nothing |
| MergeFacts.MergedClosedForm | p3/views/schedule.py:69-85 | after the merge, each listed row holds its own events followed by those of its date if it is the first row with it; behind them follows one new pair per adopted date, in visiting order |
| MergeFacts.NewPairsMembers | p3/views/schedule.py:75-82 | the appended pairs are exactly the new pairs of the dates with no listed row and a persisted schedule |
| MergeFacts.NewPairsCount | p3/views/schedule.py:75-82 | one pair is appended per such date |
| MergeFacts.MatchedDateJoinsFirstListedSchedule | p3/views/schedule.py:71-85 | a date some listed row has ends in the first such row: its loaded timetable followed by the date's events stamped with its id |
| MergeFacts.OtherListedRowsAreUnchanged | p3/views/schedule.py:70-85 | every other listed row keeps its pair unchanged |
| MergeFacts.MergedLength | p3/views/schedule.py:70-82 | the merged list holds the listed rows plus exactly one pair per adopted date, so a matched or dropped date adds no pair |
| MergeFacts.UnlistedDateOpensPersistedSchedule | p3/views/schedule.py:75-85 | a date no listed row has but a persisted schedule has gets an appended pair with that id: `fromEvents(sid, [])` followed by the date's events stamped with `sid` |
| MergeFacts.NewPairIdsDistinct | p3/views/schedule.py:75-82 | when distinct dates have distinct persisted schedules, the appended pairs have pairwise distinct ids |
| MergeFacts.UnlistedDateOpensOnePair | p3/views/schedule.py:75-82 | when distinct dates have distinct persisted schedules, a partner date with no listed row and a persisted schedule gets exactly one appended pair carrying that schedule's id: at least one and at most one |
| MergeFacts.AppendedPairsAreAdoptedDates | p3/views/schedule.py:75-85 | every appended pair is the new pair of a partner date with no listed row and a persisted schedule |
| MergeFacts.UnlistedUnknownDateIsDropped | p3/views/schedule.py:75-80 | a date with neither a listed row nor a persisted schedule is dropped: the merge equals the merge without visiting it |
| MergeFacts.MergeOrderIrrelevant | p3/views/schedule.py:70 | any two visiting orders of the partner dates merge into the same pairs, up to order |
| MergeFacts.MergedEventsCarryReceiverId | p3/views/schedule.py:83-85 | every event the merge adds carries the id of the pair that received it, and the timetable's earlier contents are kept as its prefix |
| BuildFacts.AllNonEmptyPermutation | p3/views/schedule.py:90 | whether some timetable is empty does not depend on the order of the pairs |
| BuildFacts.BuiltTimetablesOutcome | p3/views/schedule.py:37-93 | `KeyError` exactly when loading fails; else `IndexError` exactly when a merged timetable is empty, naming an empty pair; else a sorted, non-empty permutation of the merged pairs, one per row plus one per adopted date |
| BuildFacts.OnePairPerRowWithoutPartner | p3/views/schedule.py:59-69 | without partner data the result is a permutation of the loaded pairs: one per schedule row, carrying the row's id |
| BuildFacts.BuildOrderIrrelevant | p3/views/schedule.py:70-93 | the order of `partner.items()` decides neither whether the builder fails nor which pairs it returns |
| BuildFacts.EarlierDaySortsFirst | p3/views/schedule.py:86-92 | a timetable whose key falls on an earlier day sorts first, whatever the hours |

## Left out

- The `_conference_timetables` query helper (`p3/views/schedule.py:95-111`) and the HTTP views (`p3/views/schedule.py:113-253`): ORM queries, template rendering, redirects, the ICS encoder, the search backend and the credential handling of `app_schedule_ics`. They are I/O and foreign calls.
- `TimeTable2` (conference/utils) is not part of this model. A timetable is the sequence of its events. Its `fromSchedule` and `fromEvents` are uninterpreted functions, and the key's choice of "first" event is an uninterpreted `pick`.
- `fare_blob` and the `strptime`/`int` parsing are not re-implemented: each field is an already-parsed `Option`.
- Calendar dates are day numbers. Real `datetime` arithmetic, time zones and seconds are not modelled.
- `Schedule.objects.get(date=...)` is a map from date to id, so `MultipleObjectsReturned` cannot arise. `MergeFacts.NewPairIdsDistinct` and `MergeFacts.UnlistedDateOpensOnePair` assume that distinct dates have distinct schedules (`DistinctDatesDistinctSchedules`).
- Event dicts are values. The source sets `schedule_id` in the caller's dicts, so the caller's `partner` map sees the stamps afterwards. The model stamps copies, so that effect and any sharing of event dicts between timetables are not captured.
- `PartnerProgram.PartnerAsEvents` assumes every fare record has the `id`, `name`, `description` and `code` keys. A missing one would raise outside the `try`.
- `partner` of `None` and an empty dict both mean "no partner data" in the source. The model has only the empty map.
- Python's `list.sort` (timsort) is modelled by a stable insertion sort. Only its result is stated, not its algorithm.
- `MergeFacts.MergeOrderIrrelevant`: does not fix the positions of the appended pairs. They follow the unspecified visiting order, so only the multiset of pairs is independent of it.
- `BuildFacts.BuildOrderIrrelevant`: does not state that an `IndexError` names the same schedule for every order. Which empty timetable the key reaches first depends on where the appended pairs land.
