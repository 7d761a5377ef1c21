/** What `_build_timetables` returns as a whole. */
module BuildFacts {
  import opened Wrappers
  import opened Entities
  import opened Sequences
  import opened Ordering
  import opened Timetables
  import opened MergeFacts

  /** Non-empty timetables stay non-empty under a permutation. */
  lemma NonEmptyCarries(a: seq<Pair>, b: seq<Pair>)
    requires multiset(a) == multiset(b) && AllNonEmpty(a)
    ensures AllNonEmpty(b)
  {
    forall k | 0 <= k < |b|
      ensures b[k].1 != []
    {
      assert b[k] in multiset(a);
      var i :| 0 <= i < |a| && a[i] == b[k];
    }
  }

  /** Whether a timetable is empty depends only on which pairs there are. */
  lemma AllNonEmptyPermutation(a: seq<Pair>, b: seq<Pair>)
    requires multiset(a) == multiset(b)
    ensures AllNonEmpty(a) <==> AllNonEmpty(b)
  {
    if AllNonEmpty(a) {
      NonEmptyCarries(a, b);
    }
    if AllNonEmpty(b) {
      NonEmptyCarries(b, a);
    }
  }

  /** The outcome of the builder: the KeyError of the loading loop; else
      the IndexError of an empty timetable after the merge; else every
      loaded and opened pair, non-empty and sorted by first event time. */
  lemma BuiltTimetablesOutcome(schedules: seq<ScheduleRow>, events: Option<Selection>,
                               partner: map<Date, seq<Event>>, order: seq<Date>, store: Store,
                               pick: Timetable -> nat)
    requires EnumeratesKeys(order, partner)
    ensures var loaded := LoadRows(schedules, SelectionOf(schedules, events), store);
      var r := BuiltTimetables(schedules, events, partner, order, store, pick);
      && (loaded.Failure? ==> r == Failure(loaded.error))
      && (loaded.Success? ==>
            var m := Merged(schedules, loaded.value, partner, order, store);
            && (r.Success? <==> AllNonEmpty(m))
            && (r.Failure? ==>
                  r.error.EmptyTimetable? && exists i :: 0 <= i < |m| && m[i] == (r.error.sid, []))
            && (r.Success? ==>
                  && multiset(r.value) == multiset(m)
                  && |r.value| == |schedules| + |AdoptedDates(schedules, store, order)|
                  && AllNonEmpty(r.value)
                  && forall i, j :: 0 <= i < j < |r.value| ==>
                       FirstEventTime(r.value[i], pick) <= FirstEventTime(r.value[j], pick)))
  {
    var loaded := LoadRows(schedules, SelectionOf(schedules, events), store);
    if loaded.Success? {
      var m := Merged(schedules, loaded.value, partner, order, store);
      MergedLength(schedules, loaded.value, partner, order, store);
      match FirstEmpty(m)
      case Some(i) =>
        assert m[i] == (m[i].0, []);
      case None =>
        SortByFirstEventSorts(m, pick);
    }
  }

  /** Without partner events the builder returns one pair per schedule row,
      each holding the timetable loaded for that row. */
  lemma OnePairPerRowWithoutPartner(schedules: seq<ScheduleRow>, events: Option<Selection>,
                                    order: seq<Date>, store: Store, pick: Timetable -> nat)
    requires EnumeratesKeys(order, map[])
    ensures var loaded := LoadRows(schedules, SelectionOf(schedules, events), store);
      var r := BuiltTimetables(schedules, events, map[], order, store, pick);
      r.Success? ==> loaded.Success? && |r.value| == |schedules| && multiset(r.value) == multiset(loaded.value)
  {
    NoKeysNoDates(order, map[]);
    var loaded := LoadRows(schedules, SelectionOf(schedules, events), store);
    if loaded.Success? && AllNonEmpty(loaded.value) {
      SortByFirstEventSorts(loaded.value, pick);
    }
  }

  /** The order in which the partner dates are visited decides neither
      whether the builder fails nor, on success, which pairs it returns. */
  lemma BuildOrderIrrelevant(schedules: seq<ScheduleRow>, events: Option<Selection>,
                             partner: map<Date, seq<Event>>, order1: seq<Date>, order2: seq<Date>,
                             store: Store, pick: Timetable -> nat)
    requires EnumeratesKeys(order1, partner) && EnumeratesKeys(order2, partner)
    ensures var r1 := BuiltTimetables(schedules, events, partner, order1, store, pick);
      var r2 := BuiltTimetables(schedules, events, partner, order2, store, pick);
      && (r1.Success? <==> r2.Success?)
      && (r1.Success? ==> multiset(r1.value) == multiset(r2.value))
      && (r1.Failure? && r1.error.MissingEventIds? ==> r1 == r2)
  {
    var loaded := LoadRows(schedules, SelectionOf(schedules, events), store);
    if loaded.Success? {
      var m1 := Merged(schedules, loaded.value, partner, order1, store);
      var m2 := Merged(schedules, loaded.value, partner, order2, store);
      MergeOrderIrrelevant(schedules, loaded.value, partner, order1, order2, store);
      AllNonEmptyPermutation(m1, m2);
      if AllNonEmpty(m1) {
        SortByFirstEventSorts(m1, pick);
        SortByFirstEventSorts(m2, pick);
      }
    }
  }

  /** The sort key is the whole timestamp, so the date decides before the
      hour: a timetable whose key falls on an earlier day comes first
      whatever the hours. */
  lemma EarlierDaySortsFirst(p: Pair, q: Pair, pick: Timetable -> nat)
    requires p.1 != [] && q.1 != []
    requires DayOf(FirstEventTime(p, pick)) < DayOf(FirstEventTime(q, pick))
    ensures SortByFirstEvent([q, p], pick) == [p, q]
  {
    var a, b := FirstEventTime(p, pick), FirstEventTime(q, pick);
    assert a == Combine(DayOf(a), TimeOf(a)) && b == Combine(DayOf(b), TimeOf(b));
    CombineOrder(DayOf(a), TimeOf(a), DayOf(b), TimeOf(b));
    assert a < b;
    SortByFirstEventSorts([q, p], pick);
    var r := SortByFirstEvent([q, p], pick);
    assert r == [r[0], r[1]];
    assert multiset{r[0], r[1]} == multiset{q, p};
  }
}
