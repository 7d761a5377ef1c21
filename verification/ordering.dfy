/** The final step of `_build_timetables`: sorting the (schedule id,
    timetable) pairs by the time of each timetable's "first" event with
    Python's stable `list.sort(key=...)`, which first computes every key and
    then sorts the pairs by their keys. */
module Ordering {
  import opened Entities
  import opened Sequences

  /** The sort key: the time of the event that `TimeTable2` lists first in its
      internal grouping. Which event that is depends on dictionary order that
      the builder does not control, so `pick` chooses it; the key is always the
      time of one of the timetable's own events. An empty timetable has no key
      (the source raises IndexError computing it). */
  function FirstEventTime(p: Pair, pick: Timetable -> nat): Timestamp
    requires p.1 != []
  {
    p.1[pick(p.1) % |p.1|].time
  }

  /** A timetable's key is the time of one of its own events. */
  lemma KeyIsAnEventTime(p: Pair, pick: Timetable -> nat)
    requires p.1 != []
    ensures exists e :: e in p.1 && e.time == FirstEventTime(p, pick)
  {
    assert p.1[pick(p.1) % |p.1|] in p.1;
  }

  /** Every timetable has an event, so every key can be computed. */
  predicate AllNonEmpty(s: seq<Pair>)
  {
    forall k :: 0 <= k < |s| ==> s[k].1 != []
  }

  /** A value together with its precomputed key. */
  type Keyed<T> = (Timestamp, T)

  /** Non-decreasing by the precomputed key. */
  predicate Sorted<T>(s: seq<Keyed<T>>)
  {
    forall i, j :: 0 <= i < j < |s| ==> s[i].0 <= s[j].0
  }

  lemma SortedTail<T>(s: seq<Keyed<T>>)
    requires Sorted(s) && s != []
    ensures Sorted(s[1..]) && forall k :: 0 <= k < |s| ==> s[0].0 <= s[k].0
  {
  }

  /** Inserts `x` after every element whose key is not larger than its own. */
  function Insert<T>(s: seq<Keyed<T>>, x: Keyed<T>): (r: seq<Keyed<T>>)
    ensures |r| == |s| + 1
    ensures r[0] == if s == [] || x.0 < s[0].0 then x else s[0]
    ensures multiset(r) == multiset(s) + multiset{x}
  {
    if s == [] then [x]
    else if x.0 < s[0].0 then [x] + s
    else
      assert s == [s[0]] + s[1..];
      [s[0]] + Insert(s[1..], x)
  }

  /** Inserting into a sorted list keeps it sorted. */
  lemma {:induction false} InsertKeepsSorted<T>(s: seq<Keyed<T>>, x: Keyed<T>)
    requires Sorted(s)
    ensures Sorted(Insert(s, x))
  {
    if s != [] && s[0].0 <= x.0 {
      SortedTail(s);
      InsertKeepsSorted(s[1..], x);
      var rest := Insert(s[1..], x);
      assert Insert(s, x) == [s[0]] + rest;
      assert s[0].0 <= rest[0].0;
    }
  }

  /** Insertion sort: each element in turn is inserted into the sorted prefix. */
  function Sort<T>(s: seq<Keyed<T>>): (r: seq<Keyed<T>>)
    ensures multiset(r) == multiset(s)
    ensures Sorted(r)
  {
    if s == [] then []
    else
      var n := |s| - 1;
      assert s == s[..n] + [s[n]];
      var sorted := Sort(s[..n]);
      InsertKeepsSorted(sorted, s[n]);
      Insert(sorted, s[n])
  }

  /** The elements whose key is `t`, in order. */
  function WithKey<T>(s: seq<Keyed<T>>, t: Timestamp): seq<Keyed<T>>
  {
    if s == [] then []
    else (if s[0].0 == t then [s[0]] else []) + WithKey(s[1..], t)
  }

  lemma {:induction false} WithKeyAppend<T>(a: seq<Keyed<T>>, b: seq<Keyed<T>>, t: Timestamp)
    ensures WithKey(a + b, t) == WithKey(a, t) + WithKey(b, t)
  {
    if a == [] {
      assert a + b == b;
    } else {
      assert (a + b)[0] == a[0];
      assert (a + b)[1..] == a[1..] + b;
      WithKeyAppend(a[1..], b, t);
    }
  }

  lemma {:induction false} WithKeyNone<T>(s: seq<Keyed<T>>, t: Timestamp)
    requires forall k :: 0 <= k < |s| ==> s[k].0 > t
    ensures WithKey(s, t) == []
  {
    if s != [] {
      WithKeyNone(s[1..], t);
    }
  }

  lemma WithKeyCons<T>(y: Keyed<T>, s: seq<Keyed<T>>, t: Timestamp)
    ensures WithKey([y] + s, t) == (if y.0 == t then [y] else []) + WithKey(s, t)
  {
    assert ([y] + s)[0] == y && ([y] + s)[1..] == s;
  }

  /** Inserting in front of a sorted list whose keys are all larger. */
  lemma InsertFrontWithKey<T>(s: seq<Keyed<T>>, x: Keyed<T>, t: Timestamp)
    requires Sorted(s) && s != [] && x.0 < s[0].0
    ensures WithKey(Insert(s, x), t) == WithKey(s, t) + (if x.0 == t then [x] else [])
  {
    assert Insert(s, x) == [x] + s;
    WithKeyCons(x, s, t);
    if x.0 == t {
      SortedTail(s);
      WithKeyNone(s, t);
    }
  }

  lemma {:induction false} InsertWithKey<T>(s: seq<Keyed<T>>, x: Keyed<T>, t: Timestamp)
    requires Sorted(s)
    ensures WithKey(Insert(s, x), t) == WithKey(s, t) + (if x.0 == t then [x] else [])
    decreases |s|, 1
  {
    if s == [] {
      assert Insert(s, x) == [x];
      WithKeyCons(x, [], t);
    } else if x.0 < s[0].0 {
      InsertFrontWithKey(s, x, t);
    } else {
      InsertBehindWithKey(s, x, t);
    }
  }

  /** Inserting behind the head of a sorted list. */
  lemma {:induction false} InsertBehindWithKey<T>(s: seq<Keyed<T>>, x: Keyed<T>, t: Timestamp)
    requires Sorted(s) && s != [] && s[0].0 <= x.0
    ensures WithKey(Insert(s, x), t) == WithKey(s, t) + (if x.0 == t then [x] else [])
    decreases |s|, 0
  {
    SortedTail(s);
    assert Insert(s, x) == [s[0]] + Insert(s[1..], x);
    WithKeyCons(s[0], Insert(s[1..], x), t);
    WithKeyCons(s[0], s[1..], t);
    assert s == [s[0]] + s[1..];
    InsertWithKey(s[1..], x, t);
  }

  /** The sort is stable: for every key value, the elements with that key keep
      their relative order. */
  lemma {:induction false} SortIsStable<T>(s: seq<Keyed<T>>, t: Timestamp)
    ensures WithKey(Sort(s), t) == WithKey(s, t)
  {
    if s != [] {
      var n := |s| - 1;
      var x := s[n];
      var prefix := Sort(s[..n]);
      assert Sort(s) == Insert(prefix, x);
      SortIsStable(s[..n], t);
      InsertWithKey(prefix, x, t);
      assert s == s[..n] + [x];
      WithKeyAppend(s[..n], [x], t);
      WithKeyCons(x, [], t);
      assert [x] + [] == [x];
    }
  }

  /** Each pair with its key, computed before sorting. */
  function Decorate(s: seq<Pair>, pick: Timetable -> nat): (r: seq<Keyed<Pair>>)
    requires AllNonEmpty(s)
  {
    seq(|s|, k requires 0 <= k < |s| => (FirstEventTime(s[k], pick), s[k]))
  }

  /** Every element carries a non-empty timetable and its correct key. */
  predicate Decorated(ks: seq<Keyed<Pair>>, pick: Timetable -> nat)
  {
    forall k :: 0 <= k < |ks| ==> ks[k].1.1 != [] && ks[k].0 == FirstEventTime(ks[k].1, pick)
  }

  lemma DecoratedPermutation(a: seq<Keyed<Pair>>, b: seq<Keyed<Pair>>, pick: Timetable -> nat)
    requires Decorated(a, pick) && multiset(a) == multiset(b)
    ensures Decorated(b, pick)
  {
    forall k | 0 <= k < |b|
      ensures b[k].1.1 != [] && b[k].0 == FirstEventTime(b[k].1, pick)
    {
      assert b[k] in multiset(a);
    }
  }

  /** The pairs without their keys. */
  function Undecorate<T>(s: seq<Keyed<T>>): (r: seq<T>)
  {
    seq(|s|, k requires 0 <= k < |s| => s[k].1)
  }

  lemma UndecorateCons<T>(x: Keyed<T>, s: seq<Keyed<T>>)
    ensures Undecorate([x] + s) == [x.1] + Undecorate(s)
  {
  }

  lemma UndecorateSnoc<T>(s: seq<Keyed<T>>, x: Keyed<T>)
    ensures Undecorate(s + [x]) == Undecorate(s) + [x.1]
  {
  }

  /** Inserting adds exactly the inserted pair to the stripped list. */
  lemma {:induction false} UndecorateInsert<T>(s: seq<Keyed<T>>, x: Keyed<T>)
    ensures multiset(Undecorate(Insert(s, x))) == multiset(Undecorate(s)) + multiset{x.1}
  {
    if s == [] {
      assert Insert(s, x) == [x];
    } else if x.0 < s[0].0 {
      assert Insert(s, x) == [x] + s;
      UndecorateCons(x, s);
    } else {
      assert Insert(s, x) == [s[0]] + Insert(s[1..], x);
      UndecorateCons(s[0], Insert(s[1..], x));
      UndecorateInsert(s[1..], x);
      assert s == [s[0]] + s[1..];
      UndecorateCons(s[0], s[1..]);
    }
  }

  /** Sorting permutes the stripped list. */
  lemma {:induction false} UndecorateSort<T>(s: seq<Keyed<T>>)
    ensures multiset(Undecorate(Sort(s))) == multiset(Undecorate(s))
  {
    if s != [] {
      var prefix, x := s[..|s| - 1], s[|s| - 1];
      assert s == prefix + [x];
      UndecorateSort(prefix);
      UndecorateSortStep(prefix, x);
    }
  }

  lemma UndecorateSortStep<T>(s: seq<Keyed<T>>, x: Keyed<T>)
    requires multiset(Undecorate(Sort(s))) == multiset(Undecorate(s))
    ensures multiset(Undecorate(Sort(s + [x]))) == multiset(Undecorate(s + [x]))
  {
    assert (s + [x])[..|s|] == s;
    assert Sort(s + [x]) == Insert(Sort(s), x);
    UndecorateInsert(Sort(s), x);
    UndecorateSnoc(s, x);
  }

  /** `tts.sort(key=key)`: decorate with the keys, sort stably, strip the keys. */
  function SortByFirstEvent(s: seq<Pair>, pick: Timetable -> nat): seq<Pair>
    requires AllNonEmpty(s)
  {
    Undecorate(Sort(Decorate(s, pick)))
  }

  lemma UndecorateDecorate(s: seq<Pair>, pick: Timetable -> nat)
    requires AllNonEmpty(s)
    ensures Decorated(Decorate(s, pick), pick) && Undecorate(Decorate(s, pick)) == s
  {
  }

  lemma UndecorateSorted(ks: seq<Keyed<Pair>>, pick: Timetable -> nat)
    requires Decorated(ks, pick) && Sorted(ks)
    ensures var r := Undecorate(ks);
      && AllNonEmpty(r)
      && forall i, j :: 0 <= i < j < |r| ==> FirstEventTime(r[i], pick) <= FirstEventTime(r[j], pick)
  {
  }

  /** The sorted list is a permutation of its input, and it is non-decreasing
      by the first-event key. */
  lemma SortByFirstEventSorts(s: seq<Pair>, pick: Timetable -> nat)
    requires AllNonEmpty(s)
    ensures var r := SortByFirstEvent(s, pick);
      && multiset(r) == multiset(s)
      && |r| == |s|
      && AllNonEmpty(r)
      && forall i, j :: 0 <= i < j < |r| ==> FirstEventTime(r[i], pick) <= FirstEventTime(r[j], pick)
  {
    var d := Decorate(s, pick);
    var sd := Sort(d);
    UndecorateDecorate(s, pick);
    UndecorateSort(d);
    DecoratedPermutation(d, sd, pick);
    UndecorateSorted(sd, pick);
  }

  /** With the same key on several pairs, their relative order is kept. */
  lemma SortByFirstEventIsStable(s: seq<Pair>, pick: Timetable -> nat, t: Timestamp)
    requires AllNonEmpty(s)
    ensures WithKey(Sort(Decorate(s, pick)), t) == WithKey(Decorate(s, pick), t)
  {
    SortIsStable(Decorate(s, pick), t);
  }
}
