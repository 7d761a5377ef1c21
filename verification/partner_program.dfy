/** Partner-program fares turned into synthetic events grouped by calendar
    date (`_partner_as_event`). */
module PartnerProgram {
  import opened Wrappers
  import opened Entities
  import opened Sequences

  /** The single tag every synthetic event carries. */
  const PartnerTag: string := "partner-program"

  /** The single track every synthetic event is placed on. */
  const PartnerTrack: string := "partner0"

  /** All three blob fields of the fare were read and parsed. */
  predicate Parses(f: Fare)
  {
    f.date.Some? && f.departure.Some? && f.duration.Some?
  }

  /** The synthetic event built from a fare whose blob parsed. */
  function PartnerEvent(f: Fare): Event
    requires Parses(f)
  {
    Event(
      id := f.id * -1,
      scheduleId := None,
      time := Combine(f.date.value, f.departure.value),
      duration := f.duration.value,
      name := f.name,
      summary := f.description,
      fare := Some(f.code),
      tags := {PartnerTag},
      tracks := [PartnerTrack])
  }

  /** The fare parsed and its date is `d`. */
  predicate ParsesOn(f: Fare, d: Date)
  {
    Parses(f) && f.date.value == d
  }

  /** The list the grouping holds under date `d` after the fares in `fares`
      were processed in order. */
  function EventsOn(fares: seq<Fare>, d: Date): seq<Event>
  {
    if fares == [] then []
    else
      var f := fares[|fares| - 1];
      EventsOn(fares[..|fares| - 1], d) + (if ParsesOn(f, d) then [PartnerEvent(f)] else [])
  }

  /** The positions in `fares` of the fares that land under date `d`, in
      increasing order; it is exactly the fares that parse with date `d`, and
      the events under `d` are theirs, one for one and in the same order. */
  function SourceIndices(fares: seq<Fare>, d: Date): (ix: seq<nat>)
    ensures |ix| == |EventsOn(fares, d)|
    ensures forall k :: 0 <= k < |ix| ==>
      ix[k] < |fares| && ParsesOn(fares[ix[k]], d) && EventsOn(fares, d)[k] == PartnerEvent(fares[ix[k]])
    ensures forall k, l :: 0 <= k < l < |ix| ==> ix[k] < ix[l]
    ensures forall i :: 0 <= i < |fares| && ParsesOn(fares[i], d) ==> i in ix
  {
    if fares == [] then []
    else
      var n := |fares| - 1;
      var prefix := fares[..n];
      var ix0 := SourceIndices(prefix, d);
      assert forall k :: 0 <= k < |ix0| ==> fares[ix0[k]] == prefix[ix0[k]];
      assert forall i :: 0 <= i < n ==> fares[i] == prefix[i];
      if ParsesOn(fares[n], d) then ix0 + [n] else ix0
  }

  /** `_partner_as_event`: every fare whose blob parses becomes a synthetic
      event appended to the list of its date; a fare whose blob does not parse
      is skipped. A date is a key exactly when some event landed under it. */
  method PartnerAsEvents(fares: seq<Fare>) returns (partner: map<Date, seq<Event>>)
    ensures forall d :: d in partner <==> EventsOn(fares, d) != []
    ensures forall d :: d in partner ==> partner[d] == EventsOn(fares, d)
  {
    partner := map[];
    var i := 0;
    while i < |fares|
      invariant 0 <= i <= |fares|
      invariant forall d :: d in partner <==> EventsOn(fares[..i], d) != []
      invariant forall d :: d in partner ==> partner[d] == EventsOn(fares[..i], d)
    {
      var f := fares[i];
      assert fares[..i + 1][..i] == fares[..i];
      if f.date.None? || f.departure.None? || f.duration.None? {
        i := i + 1;
        continue;
      }
      var d := f.date.value;
      var bucket := if d in partner then partner[d] else [];
      partner := partner[d := bucket + [PartnerEvent(f)]];
      i := i + 1;
    }
    assert fares[..|fares|] == fares;
  }

  /** Every key of the grouping holds a non-empty list, and the keys are
      exactly the dates of the fares that parse. */
  lemma {:induction false} KeysAreParsedDates(fares: seq<Fare>, d: Date)
    ensures EventsOn(fares, d) != [] <==> exists i :: 0 <= i < |fares| && ParsesOn(fares[i], d)
  {
    var ix := SourceIndices(fares, d);
    if exists i :: 0 <= i < |fares| && ParsesOn(fares[i], d) {
      var i :| 0 <= i < |fares| && ParsesOn(fares[i], d);
      assert i in ix;
    }
    if EventsOn(fares, d) != [] {
      assert ParsesOn(fares[ix[0]], d);
    }
  }

  /** Removing a fare whose blob does not parse changes no date's list: such a
      fare is skipped and contributes no event. */
  lemma {:induction false} UnparsedFareIsSkipped(fares: seq<Fare>, i: nat, d: Date)
    requires i < |fares| && !Parses(fares[i])
    ensures EventsOn(fares[..i] + fares[i + 1..], d) == EventsOn(fares, d)
  {
    var n := |fares| - 1;
    if i == n {
      assert fares[..i] + fares[i + 1..] == fares[..n];
    } else {
      var prefix := fares[..n];
      UnparsedFareIsSkipped(prefix, i, d);
      var shorter := fares[..i] + fares[i + 1..];
      assert shorter[..|shorter| - 1] == prefix[..i] + prefix[i + 1..];
      assert shorter[|shorter| - 1] == fares[n];
    }
  }

  /** The fields of every synthetic event under date `d`: it comes from a fare
      that parses with date `d`; its id is that fare's id negated, its time is
      the fare's date and departure combined (so it falls on day `d`), it
      belongs to no schedule yet, and it carries the partner tag and track. */
  lemma SyntheticEventFields(fares: seq<Fare>, d: Date, k: nat)
    requires k < |EventsOn(fares, d)|
    ensures var e := EventsOn(fares, d)[k];
      && (exists i :: 0 <= i < |fares| && ParsesOn(fares[i], d)
            && e.id == -fares[i].id
            && e.time == Combine(d, fares[i].departure.value)
            && e.duration == fares[i].duration.value
            && e.fare == Some(fares[i].code))
      && e.scheduleId == None
      && e.tags == {PartnerTag}
      && e.tracks == [PartnerTrack]
      && DayOf(e.time) == d
  {
    var ix := SourceIndices(fares, d);
    var f := fares[ix[k]];
    CombineSplits(d, f.departure.value);
  }

  /** Synthetic ids are negated fare ids: when fare ids are positive (as
      database ids are), no synthetic event id equals a real event id. */
  lemma SyntheticIdsAreNegative(fares: seq<Fare>, d: Date, realId: int)
    requires forall i :: 0 <= i < |fares| ==> fares[i].id > 0
    requires realId > 0
    ensures forall e :: e in EventsOn(fares, d) ==> e.id < 0 && e.id != realId
  {
    forall e | e in EventsOn(fares, d)
      ensures e.id < 0
    {
      var k :| 0 <= k < |EventsOn(fares, d)| && EventsOn(fares, d)[k] == e;
      SyntheticEventFields(fares, d, k);
    }
  }

  /** The number of fares whose blob parses. */
  function ParsedCount(fares: seq<Fare>): nat
  {
    if fares == [] then 0
    else ParsedCount(fares[..|fares| - 1]) + (if Parses(fares[|fares| - 1]) then 1 else 0)
  }

  /** The total length of the lists under the dates in `dates`. */
  function TotalOn(fares: seq<Fare>, dates: seq<Date>): nat
  {
    if dates == [] then 0 else |EventsOn(fares, dates[0])| + TotalOn(fares, dates[1..])
  }

  /** Appending one fare adds one event to the total over distinct dates when
      it parses with one of those dates, and nothing otherwise. */
  lemma {:induction false} TotalOnSnoc(fares: seq<Fare>, f: Fare, dates: seq<Date>)
    requires Distinct(dates)
    ensures TotalOn(fares + [f], dates)
         == TotalOn(fares, dates) + (if Parses(f) && f.date.value in dates then 1 else 0)
  {
    var all := fares + [f];
    assert all[..|all| - 1] == fares;
    if dates != [] {
      TotalOnSnoc(fares, f, dates[1..]);
      if Parses(f) && f.date.value == dates[0] {
        assert f.date.value !in dates[1..];
      }
    }
  }

  /** The events of the grouping, summed over any duplicate-free list of
      dates that covers every parsed fare's date, number exactly the fares
      that parse: each such fare yields one event. */
  lemma {:induction false} TotalIsParsedCount(fares: seq<Fare>, dates: seq<Date>)
    requires Distinct(dates)
    requires forall i :: 0 <= i < |fares| && Parses(fares[i]) ==> fares[i].date.value in dates
    ensures TotalOn(fares, dates) == ParsedCount(fares)
  {
    if fares == [] {
      TotalOfNothing(dates);
    } else {
      var n := |fares| - 1;
      TotalIsParsedCount(fares[..n], dates);
      assert fares[..n] + [fares[n]] == fares;
      TotalOnSnoc(fares[..n], fares[n], dates);
    }
  }

  /** No fares, no events under any dates. */
  lemma {:induction false} TotalOfNothing(dates: seq<Date>)
    ensures TotalOn([], dates) == 0
  {
    if dates != [] {
      TotalOfNothing(dates[1..]);
    }
  }
}
