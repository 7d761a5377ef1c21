/** What the partner merge of `_build_timetables` produces, stated without
    reference to the order in which the partner dates are visited. */
module MergeFacts {
  import opened Wrappers
  import opened Entities
  import opened Sequences
  import opened Timetables

  /** The dates of an iteration order, as a set. */
  function DatesOf(order: seq<Date>): set<Date>
  {
    set d | d in order
  }

  /** The stamped events listed row `i` receives from the partner dates in
      `dates`: those of its own date, when it is the first row with that date. */
  function Received(schedules: seq<ScheduleRow>, built: seq<Pair>, partner: map<Date, seq<Event>>,
                    dates: set<Date>, i: nat): seq<Event>
    requires i < |schedules| && i < |built|
    requires dates <= partner.Keys
  {
    var d := schedules[i].date;
    if d in dates && FirstMatch(schedules, d) == Some(i) then Stamp(partner[d], built[i].0) else []
  }

  /** The loaded pairs after every listed row received its events. */
  function Injected(schedules: seq<ScheduleRow>, built: seq<Pair>, partner: map<Date, seq<Event>>,
                    dates: set<Date>): (r: seq<Pair>)
    requires |schedules| == |built|
    requires dates <= partner.Keys
    ensures |r| == |built|
  {
    seq(|built|, i requires 0 <= i < |built| =>
      (built[i].0, built[i].1 + Received(schedules, built, partner, dates, i)))
  }

  /** The pairs opened for the adopted dates of `order`, in that order. */
  function NewPairs(schedules: seq<ScheduleRow>, partner: map<Date, seq<Event>>, order: seq<Date>,
                    store: Store): seq<Pair>
    requires forall d :: d in order ==> d in partner
  {
    if order == [] then []
    else
      var n := |order| - 1;
      NewPairs(schedules, partner, order[..n], store)
        + if Adopted(schedules, store, order[n]) then [NewPair(partner, store, order[n])] else []
  }

  /** Merging a date no listed row has leaves the listed rows as they are. */
  lemma InjectUnmatched(schedules: seq<ScheduleRow>, built: seq<Pair>, partner: map<Date, seq<Event>>,
                        dates: set<Date>, d: Date)
    requires |schedules| == |built|
    requires dates <= partner.Keys && d in partner
    requires FirstMatch(schedules, d).None?
    ensures Injected(schedules, built, partner, dates + {d}) == Injected(schedules, built, partner, dates)
  {
    forall i | 0 <= i < |built|
      ensures Received(schedules, built, partner, dates + {d}, i) == Received(schedules, built, partner, dates, i)
    {
      assert schedules[i].date != d;
    }
  }

  /** Merging a date whose first listed row is `ix` extends that row alone. */
  lemma InjectMatched(schedules: seq<ScheduleRow>, built: seq<Pair>, partner: map<Date, seq<Event>>,
                      dates: set<Date>, d: Date, ix: nat)
    requires |schedules| == |built|
    requires dates <= partner.Keys && d in partner && d !in dates
    requires FirstMatch(schedules, d) == Some(ix)
    ensures var before := Injected(schedules, built, partner, dates);
      Injected(schedules, built, partner, dates + {d})
        == before[ix := (before[ix].0, before[ix].1 + Stamp(partner[d], before[ix].0))]
  {
    var before := Injected(schedules, built, partner, dates);
    assert Received(schedules, built, partner, dates, ix) == [];
    assert before[ix].1 == built[ix].1;
    forall i | 0 <= i < |built| && i != ix
      ensures Received(schedules, built, partner, dates + {d}, i) == Received(schedules, built, partner, dates, i)
    {
    }
  }

  /** One iteration of the merge loop, in closed form. */
  lemma MergeStep(schedules: seq<ScheduleRow>, built: seq<Pair>, partner: map<Date, seq<Event>>,
                  dates: set<Date>, d: Date, added: seq<Pair>, store: Store)
    requires |schedules| == |built|
    requires dates <= partner.Keys && d in partner && d !in dates
    ensures MergeDate(schedules, Injected(schedules, built, partner, dates) + added, d, partner[d], store)
      == Injected(schedules, built, partner, dates + {d})
        + (added + if Adopted(schedules, store, d) then [NewPair(partner, store, d)] else [])
  {
    var before := Injected(schedules, built, partner, dates);
    match FirstMatch(schedules, d)
    case Some(ix) =>
      InjectMatched(schedules, built, partner, dates, d, ix);
      var tts := before + added;
      assert tts[ix] == before[ix];
      assert tts[ix := (tts[ix].0, tts[ix].1 + Stamp(partner[d], tts[ix].0))]
        == before[ix := (before[ix].0, before[ix].1 + Stamp(partner[d], before[ix].0))] + added;
    case None =>
      InjectUnmatched(schedules, built, partner, dates, d);
  }

  /** The merge loop's result: every listed row extended by what it
      receives, followed by one new pair per adopted date, in visiting order. */
  lemma {:induction false} MergedClosedForm(schedules: seq<ScheduleRow>, built: seq<Pair>,
                                            partner: map<Date, seq<Event>>, order: seq<Date>, store: Store)
    requires |schedules| == |built|
    requires Distinct(order) && forall k :: 0 <= k < |order| ==> order[k] in partner
    ensures DatesOf(order) <= partner.Keys
    ensures Merged(schedules, built, partner, order, store)
      == Injected(schedules, built, partner, DatesOf(order)) + NewPairs(schedules, partner, order, store)
  {
    if order == [] {
      assert DatesOf(order) == {};
      forall i | 0 <= i < |built|
        ensures Injected(schedules, built, partner, {})[i] == built[i]
      {
        assert built[i].1 + [] == built[i].1;
      }
    } else {
      var n := |order| - 1;
      var prefix, d := order[..n], order[n];
      assert order == prefix + [d];
      assert Distinct(prefix);
      assert DatesOf(order) == DatesOf(prefix) + {d};
      MergedClosedForm(schedules, built, partner, prefix, store);
      MergeStep(schedules, built, partner, DatesOf(prefix), d, NewPairs(schedules, partner, prefix, store), store);
    }
  }

  /** The dates of `order` for which a new pair is opened. */
  function AdoptedDates(schedules: seq<ScheduleRow>, store: Store, order: seq<Date>): set<Date>
  {
    set d | d in order && Adopted(schedules, store, d)
  }

  /** New pairs of consecutive stretches of dates concatenate. */
  lemma {:induction false} NewPairsAppend(schedules: seq<ScheduleRow>, partner: map<Date, seq<Event>>,
                                          a: seq<Date>, b: seq<Date>, store: Store)
    requires forall d :: d in a ==> d in partner
    requires forall d :: d in b ==> d in partner
    ensures NewPairs(schedules, partner, a + b, store)
      == NewPairs(schedules, partner, a, store) + NewPairs(schedules, partner, b, store)
  {
    if b == [] {
      assert a + b == a;
    } else {
      var n := |b| - 1;
      assert (a + b)[..|a| + n] == a + b[..n];
      NewPairsAppend(schedules, partner, a, b[..n], store);
    }
  }

  /** The new pairs are exactly those of the adopted dates. */
  lemma {:induction false} NewPairsMembers(schedules: seq<ScheduleRow>, partner: map<Date, seq<Event>>,
                                           order: seq<Date>, store: Store)
    requires forall d :: d in order ==> d in partner
    ensures forall d :: d in order && Adopted(schedules, store, d) ==>
      NewPair(partner, store, d) in NewPairs(schedules, partner, order, store)
    ensures forall p :: p in NewPairs(schedules, partner, order, store) ==>
      exists d :: d in order && d in partner && Adopted(schedules, store, d) && p == NewPair(partner, store, d)
  {
    if order != [] {
      var n := |order| - 1;
      var prefix, x := order[..n], order[n];
      assert order == prefix + [x];
      NewPairsMembers(schedules, partner, prefix, store);
    }
  }

  /** Without repeated dates there is one new pair per adopted date. */
  lemma {:induction false} NewPairsCount(schedules: seq<ScheduleRow>, partner: map<Date, seq<Event>>,
                                         order: seq<Date>, store: Store)
    requires Distinct(order) && forall d :: d in order ==> d in partner
    ensures |NewPairs(schedules, partner, order, store)| == |AdoptedDates(schedules, store, order)|
  {
    if order != [] {
      var n := |order| - 1;
      var prefix, x := order[..n], order[n];
      assert order == prefix + [x];
      assert Distinct(prefix);
      NewPairsCount(schedules, partner, prefix, store);
      assert x !in AdoptedDates(schedules, store, prefix);
      if Adopted(schedules, store, x) {
        assert AdoptedDates(schedules, store, order) == AdoptedDates(schedules, store, prefix) + {x};
      } else {
        assert AdoptedDates(schedules, store, order) == AdoptedDates(schedules, store, prefix);
      }
    }
  }

  /** Taking one date out of the visiting order takes out its new pair, if any. */
  lemma NewPairsWithout(schedules: seq<ScheduleRow>, partner: map<Date, seq<Event>>,
                        order: seq<Date>, j: nat, store: Store)
    requires j < |order| && forall d :: d in order ==> d in partner
    ensures forall d :: d in Without(order, j) ==> d in partner
    ensures multiset(NewPairs(schedules, partner, order, store))
      == multiset(NewPairs(schedules, partner, Without(order, j), store))
        + multiset(NewPairs(schedules, partner, [order[j]], store))
  {
    var a, x, b := order[..j], order[j], order[j + 1..];
    assert order == a + [x] + b;
    assert Without(order, j) == a + b;
    NewPairsAppend(schedules, partner, a + [x], b, store);
    NewPairsAppend(schedules, partner, a, [x], store);
    NewPairsAppend(schedules, partner, a, b, store);
  }

  /** The new pairs do not depend on the visiting order, up to their order. */
  lemma {:induction false} NewPairsPermutation(schedules: seq<ScheduleRow>, partner: map<Date, seq<Event>>,
                                               a: seq<Date>, b: seq<Date>, store: Store)
    requires multiset(a) == multiset(b)
    requires forall d :: d in a ==> d in partner
    ensures forall d :: d in b ==> d in partner
    ensures multiset(NewPairs(schedules, partner, a, store)) == multiset(NewPairs(schedules, partner, b, store))
  {
    assert forall d :: d in b <==> d in multiset(b);
    if a != [] {
      var n := |a| - 1;
      var prefix, x := a[..n], a[n];
      assert a == prefix + [x];
      var j := IndexOf(b, x);
      var rest := Without(b, j);
      RemoveSame(prefix, rest, x);
      NewPairsPermutation(schedules, partner, prefix, rest, store);
      NewPairsWithout(schedules, partner, b, j, store);
      NewPairsAppend(schedules, partner, prefix, [x], store);
    }
  }

  /** A partner date some listed row has: its events, stamped with that row's
      schedule id, are appended to the first such row's timetable. */
  lemma MatchedDateJoinsFirstListedSchedule(schedules: seq<ScheduleRow>, built: seq<Pair>,
                                            partner: map<Date, seq<Event>>, order: seq<Date>,
                                            store: Store, d: Date, ix: nat)
    requires |schedules| == |built| && EnumeratesKeys(order, partner)
    requires d in partner && FirstMatch(schedules, d) == Some(ix)
    ensures var m := Merged(schedules, built, partner, order, store);
      ix < |m| && m[ix] == (built[ix].0, built[ix].1 + Stamp(partner[d], built[ix].0))
  {
    MergedClosedForm(schedules, built, partner, order, store);
    assert Received(schedules, built, partner, DatesOf(order), ix) == Stamp(partner[d], built[ix].0);
  }

  /** A listed row that is not the first row of a partner date keeps its
      timetable unchanged. */
  lemma OtherListedRowsAreUnchanged(schedules: seq<ScheduleRow>, built: seq<Pair>,
                                    partner: map<Date, seq<Event>>, order: seq<Date>,
                                    store: Store, i: nat)
    requires |schedules| == |built| && EnumeratesKeys(order, partner)
    requires i < |schedules|
    requires schedules[i].date !in partner || FirstMatch(schedules, schedules[i].date) != Some(i)
    ensures var m := Merged(schedules, built, partner, order, store);
      i < |m| && m[i] == built[i]
  {
    MergedClosedForm(schedules, built, partner, order, store);
    assert Received(schedules, built, partner, DatesOf(order), i) == [];
    assert built[i].1 + [] == built[i].1;
  }

  /** The merge keeps the listed rows first and appends exactly one pair per
      adopted date. */
  lemma MergedLength(schedules: seq<ScheduleRow>, built: seq<Pair>, partner: map<Date, seq<Event>>,
                     order: seq<Date>, store: Store)
    requires |schedules| == |built| && EnumeratesKeys(order, partner)
    ensures |Merged(schedules, built, partner, order, store)|
      == |schedules| + |AdoptedDates(schedules, store, order)|
  {
    MergedClosedForm(schedules, built, partner, order, store);
    NewPairsCount(schedules, partner, order, store);
  }

  /** A partner date no listed row has but a persisted schedule has: a pair
      for that schedule is appended, holding `fromEvents(sid, [])` followed by
      the date's events stamped with `sid`. */
  lemma UnlistedDateOpensPersistedSchedule(schedules: seq<ScheduleRow>, built: seq<Pair>,
                                           partner: map<Date, seq<Event>>, order: seq<Date>,
                                           store: Store, d: Date)
    requires |schedules| == |built| && EnumeratesKeys(order, partner)
    requires d in partner && FirstMatch(schedules, d).None? && d in store.scheduleByDate
    ensures var m := Merged(schedules, built, partner, order, store);
      var sid := store.scheduleByDate[d];
      exists k :: |schedules| <= k < |m| && m[k] == (sid, store.fromEvents(sid, []) + Stamp(partner[d], sid))
  {
    MergedClosedForm(schedules, built, partner, order, store);
    NewPairsMembers(schedules, partner, order, store);
    var m := Merged(schedules, built, partner, order, store);
    var added := NewPairs(schedules, partner, order, store);
    var k :| 0 <= k < |added| && added[k] == NewPair(partner, store, d);
    assert m[|schedules| + k] == added[k];
  }

  /** Every appended pair is the new pair of an adopted partner date. */
  lemma AppendedPairsAreAdoptedDates(schedules: seq<ScheduleRow>, built: seq<Pair>,
                                     partner: map<Date, seq<Event>>, order: seq<Date>,
                                     store: Store, k: nat)
    requires |schedules| == |built| && EnumeratesKeys(order, partner)
    requires |schedules| <= k < |Merged(schedules, built, partner, order, store)|
    ensures var m := Merged(schedules, built, partner, order, store);
      exists d :: d in partner && Adopted(schedules, store, d) &&
        m[k] == (store.scheduleByDate[d], store.fromEvents(store.scheduleByDate[d], [])
          + Stamp(partner[d], store.scheduleByDate[d]))
  {
    MergedClosedForm(schedules, built, partner, order, store);
    NewPairsMembers(schedules, partner, order, store);
    var added := NewPairs(schedules, partner, order, store);
    assert Merged(schedules, built, partner, order, store)[k] == added[k - |schedules|];
    assert added[k - |schedules|] in added;
  }

  /** A date without a new pair can be taken out of the visiting order. */
  lemma NewPairsSkip(schedules: seq<ScheduleRow>, partner: map<Date, seq<Event>>,
                     order: seq<Date>, j: nat, store: Store)
    requires j < |order| && forall d :: d in order ==> d in partner
    requires !Adopted(schedules, store, order[j])
    ensures forall d :: d in Without(order, j) ==> d in partner
    ensures NewPairs(schedules, partner, order, store) == NewPairs(schedules, partner, Without(order, j), store)
  {
    var a, x, b := order[..j], order[j], order[j + 1..];
    assert order == a + [x] + b;
    assert Without(order, j) == a + b;
    NewPairsAppend(schedules, partner, a + [x], b, store);
    NewPairsAppend(schedules, partner, a, [x], store);
    NewPairsAppend(schedules, partner, a, b, store);
    assert NewPairs(schedules, partner, [x], store) == [] by {
      assert [x][..0] == [];
    }
  }

  /** A partner date with neither a listed row nor a persisted schedule is
      dropped: the merge comes out as if it were not visited at all. */
  lemma UnlistedUnknownDateIsDropped(schedules: seq<ScheduleRow>, built: seq<Pair>,
                                     partner: map<Date, seq<Event>>, order: seq<Date>,
                                     store: Store, j: nat)
    requires |schedules| == |built| && EnumeratesKeys(order, partner)
    requires j < |order|
    requires FirstMatch(schedules, order[j]).None? && order[j] !in store.scheduleByDate
    ensures forall k :: 0 <= k < |Without(order, j)| ==> Without(order, j)[k] in partner
    ensures Merged(schedules, built, partner, order, store)
      == Merged(schedules, built, partner, Without(order, j), store)
  {
    var x, rest := order[j], Without(order, j);
    DistinctWithout(order, j);
    assert DatesOf(rest) + {x} == DatesOf(order);
    MergedClosedForm(schedules, built, partner, order, store);
    MergedClosedForm(schedules, built, partner, rest, store);
    InjectUnmatched(schedules, built, partner, DatesOf(rest), x);
    NewPairsSkip(schedules, partner, order, j, store);
  }

  /** Two visiting orders of the same partner dates merge into the same
      pairs, up to the order of the appended ones. */
  lemma MergeOrderIrrelevant(schedules: seq<ScheduleRow>, built: seq<Pair>, partner: map<Date, seq<Event>>,
                             order1: seq<Date>, order2: seq<Date>, store: Store)
    requires |schedules| == |built|
    requires EnumeratesKeys(order1, partner) && EnumeratesKeys(order2, partner)
    ensures multiset(Merged(schedules, built, partner, order1, store))
      == multiset(Merged(schedules, built, partner, order2, store))
  {
    forall d
      ensures d in order1 <==> d in order2
    {
      if d in order1 {
        var k :| 0 <= k < |order1| && order1[k] == d;
      }
      if d in order2 {
        var k :| 0 <= k < |order2| && order2[k] == d;
      }
    }
    DistinctSameElements(order1, order2);
    assert DatesOf(order1) == DatesOf(order2);
    MergedClosedForm(schedules, built, partner, order1, store);
    MergedClosedForm(schedules, built, partner, order2, store);
    NewPairsPermutation(schedules, partner, order1, order2, store);
  }

  /** Distinct dates have distinct persisted schedules: the date-to-id lookup
      is injective, so every persisted schedule has a single date. */
  predicate DistinctDatesDistinctSchedules(store: Store)
  {
    forall d1, d2 :: d1 in store.scheduleByDate && d2 in store.scheduleByDate && d1 != d2 ==>
      store.scheduleByDate[d1] != store.scheduleByDate[d2]
  }

  /** The new pairs of distinct dates carry distinct schedule ids. */
  lemma {:induction false} NewPairIdsDistinct(schedules: seq<ScheduleRow>, partner: map<Date, seq<Event>>,
                                              order: seq<Date>, store: Store)
    requires Distinct(order) && forall d :: d in order ==> d in partner
    requires DistinctDatesDistinctSchedules(store)
    ensures forall i, k :: 0 <= i < k < |NewPairs(schedules, partner, order, store)| ==>
      NewPairs(schedules, partner, order, store)[i].0 != NewPairs(schedules, partner, order, store)[k].0
  {
    if order != [] {
      var n := |order| - 1;
      var prefix, x := order[..n], order[n];
      assert order == prefix + [x];
      assert Distinct(prefix);
      NewPairIdsDistinct(schedules, partner, prefix, store);
      NewPairsMembers(schedules, partner, prefix, store);
      var before := NewPairs(schedules, partner, prefix, store);
      if Adopted(schedules, store, x) {
        forall k | 0 <= k < |before|
          ensures before[k].0 != store.scheduleByDate[x]
        {
          assert before[k] in before;
          var d :| d in prefix && d in partner && Adopted(schedules, store, d) && before[k] == NewPair(partner, store, d);
          assert d != x;
        }
        assert NewPairs(schedules, partner, order, store) == before + [NewPair(partner, store, x)];
      }
    }
  }

  /** When distinct dates have distinct persisted schedules, an unlisted
      partner date with a persisted schedule gets exactly one appended pair
      with that schedule's id. */
  lemma UnlistedDateOpensOnePair(schedules: seq<ScheduleRow>, built: seq<Pair>,
                                 partner: map<Date, seq<Event>>, order: seq<Date>,
                                 store: Store, d: Date)
    requires |schedules| == |built| && EnumeratesKeys(order, partner)
    requires DistinctDatesDistinctSchedules(store)
    requires d in partner && FirstMatch(schedules, d).None? && d in store.scheduleByDate
    ensures var m := Merged(schedules, built, partner, order, store);
      exists k :: |schedules| <= k < |m| && m[k].0 == store.scheduleByDate[d]
    ensures var m := Merged(schedules, built, partner, order, store);
      forall k1, k2 ::
        (|schedules| <= k1 < |m| && |schedules| <= k2 < |m|
          && m[k1].0 == store.scheduleByDate[d] && m[k2].0 == store.scheduleByDate[d]) ==> k1 == k2
  {
    UnlistedDateOpensPersistedSchedule(schedules, built, partner, order, store, d);
    MergedClosedForm(schedules, built, partner, order, store);
    NewPairIdsDistinct(schedules, partner, order, store);
    var added := NewPairs(schedules, partner, order, store);
    var m := Merged(schedules, built, partner, order, store);
    assert forall k :: |schedules| <= k < |m| ==> m[k] == added[k - |schedules|];
  }

  /** Every event the merge adds to a timetable carries the id of the pair
      that received it, and what the timetable held before is kept as its
      prefix: the loaded timetable for a listed row, `fromEvents(sid, [])`
      for an appended pair. */
  lemma MergedEventsCarryReceiverId(schedules: seq<ScheduleRow>, built: seq<Pair>,
                                    partner: map<Date, seq<Event>>, order: seq<Date>,
                                    store: Store, i: nat)
    requires |schedules| == |built| && EnumeratesKeys(order, partner)
    requires i < |Merged(schedules, built, partner, order, store)|
    ensures var m := Merged(schedules, built, partner, order, store);
      var base := if i < |schedules| then built[i].1 else store.fromEvents(m[i].0, []);
      && (i < |schedules| ==> m[i].0 == built[i].0)
      && |base| <= |m[i].1| && m[i].1[..|base|] == base
      && forall e :: e in m[i].1[|base|..] ==> e.scheduleId == Some(m[i].0)
  {
    MergedClosedForm(schedules, built, partner, order, store);
    var m := Merged(schedules, built, partner, order, store);
    var base := if i < |schedules| then built[i].1 else store.fromEvents(m[i].0, []);
    var received: seq<Event>;
    if i < |schedules| {
      received := Received(schedules, built, partner, DatesOf(order), i);
    } else {
      NewPairsMembers(schedules, partner, order, store);
      var added := NewPairs(schedules, partner, order, store);
      assert m[i] == added[i - |schedules|];
      assert added[i - |schedules|] in added;
      var d :| d in partner && Adopted(schedules, store, d) && m[i] == NewPair(partner, store, d);
      received := Stamp(partner[d], m[i].0);
    }
    assert m[i].1 == base + received;
    assert m[i].1[|base|..] == received;
  }
}
