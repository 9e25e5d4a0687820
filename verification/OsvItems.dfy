/** The exact condition for an item with any number of event ranges, and how to decide it for one at hand. */
module OsvItems {
  import opened Sequences
  import opened Semver
  import opened OsvRanges
  import opened OsvEvaluation
  import opened OsvExactness

  ghost predicate SomethingFixed(ranges: seq<EventRange>) {
    exists r :: r in ranges && HasFixed(r.events)
  }

  ghost predicate AllWellFormed(ranges: seq<EventRange>) {
    forall r :: r in ranges ==> WellFormed(r.events)
  }

  /** By the OSV algorithm the versions from events[i] on are vulnerable, for ever. */
  ghost predicate StaysOpenAt(events: seq<Event>, i: int) {
    && 0 <= i < |events| && IsIntroduced(events[i])
    && forall j :: 0 <= j < |events| && IsFixed(events[j]) ==> Earlier(events, j, i)
  }

  lemma {:induction false} NothingClosedInOne(kind: Option<string>, events: seq<Event>)
    ensures ClosedRanges(kind, events) == [] <==> !HasFixed(events)
  {
    hide LastIntroduced;
    if events != [] {
      NothingClosedInOne(kind, Init(events));
      if j :| 0 <= j < |events| && IsFixed(events[j]) {
        assert j < |events| - 1 ==> Init(events)[j] == events[j];
      }
      if j :| 0 <= j < |Init(events)| && IsFixed(Init(events)[j]) {
        assert events[j] == Init(events)[j];
      }
      assert IsFixed(Last(events)) ==> IsFixed(events[|events| - 1]);
    }
  }

  lemma {:induction false} NothingClosed(ranges: seq<EventRange>)
    ensures ClosedRangesOf(ranges) == [] <==> !SomethingFixed(ranges)
  {
    hide ClosedRanges, HasFixed;
    if ranges != [] {
      NothingClosed(Init(ranges));
      NothingClosedInOne(Last(ranges).kind, Last(ranges).events);
      assert forall r :: r in ranges <==> r in Init(ranges) || r == Last(ranges);
    }
  }

  lemma ContainedInClosed(ranges: seq<EventRange>, version: string)
    requires ranges != [] && AllWellFormed(ranges) && SomethingFixed(ranges)
    ensures Contains(ItemRanges(ranges), version) <==>
            exists r, j :: r in ranges && CoversAt(r.events, ParseSemver(version), j)
  {
    hide ParseSemver, Contains, ClosedRanges, ClosedRangesOf, ItemRanges, SomethingFixed, CoversAt, LastIntroduced,
      WellFormed;
    NothingClosed(ranges);
    ItemRangesWhenNothingIsClosed(ranges);
    ContainsInSome(ranges, version);
    forall r | r in ranges
      ensures Contains(ClosedRanges(r.kind, r.events), version) <==>
              exists j :: CoversAt(r.events, ParseSemver(version), j)
    {
      ContainsByIndex(r.kind, r.events, version);
    }
  }

  // ---------------------------------------------------------------------
  // The versions that events name
  // ---------------------------------------------------------------------

  function VersionsOf(events: seq<Event>): seq<Version> {
    if events == [] then [] else VersionsOf(Init(events)) + [VersionOf(Last(events))]
  }

  /** The least version, and the version of every event of the item. */
  function NamedVersions(ranges: seq<EventRange>): seq<Version> {
    if ranges == [] then [ZERO] else NamedVersions(Init(ranges)) + VersionsOf(Last(ranges).events)
  }

  lemma {:induction false} VersionsAreNamed(events: seq<Event>)
    ensures forall i :: 0 <= i < |events| ==> VersionOf(events[i]) in VersionsOf(events)
  {
    hide VersionOf;
    if events != [] {
      VersionsAreNamed(Init(events));
    }
  }

  lemma {:induction false} NamedInItem(ranges: seq<EventRange>)
    ensures ZERO in NamedVersions(ranges)
    ensures forall r, i :: r in ranges && 0 <= i < |r.events| ==> VersionOf(r.events[i]) in NamedVersions(ranges)
  {
    hide VersionOf, VersionsOf;
    if ranges != [] {
      NamedInItem(Init(ranges));
      VersionsAreNamed(Last(ranges).events);
      assert forall r :: r in ranges <==> r in Init(ranges) || r == Last(ranges);
    }
  }

  /** The greatest of these versions at or below v. */
  lemma {:induction false} NearestBelow(xs: seq<Version>, v: Version) returns (u: Version)
    requires ZERO in xs
    ensures u in xs && AtMost(u, v)
    ensures forall x :: x in xs ==> (AtMost(x, u) <==> AtMost(x, v))
  {
    var l := Last(xs);
    if ZERO in Init(xs) {
      u := NearestBelow(Init(xs), v);
      if AtMost(l, v) && AtMost(u, l) {
        u := l;
      }
      assert forall x :: x in xs <==> x in Init(xs) || x == l;
    } else {
      u := NearestAbove(xs, v, ZERO);
    }
  }

  lemma {:induction false} NearestAbove(xs: seq<Version>, v: Version, least: Version) returns (u: Version)
    requires AtMost(least, v)
    ensures u == least || u in xs
    ensures AtMost(u, v) && AtMost(least, u)
    ensures forall x :: x in xs ==> (AtMost(x, v) ==> AtMost(x, u))
  {
    u := least;
    if xs != [] {
      u := NearestAbove(Init(xs), v, least);
      if AtMost(Last(xs), v) && AtMost(u, Last(xs)) {
        u := Last(xs);
      }
    }
  }

  lemma {:induction false} Greatest(xs: seq<Version>) returns (m: Version)
    ensures forall x :: x in xs ==> AtMost(x, m)
  {
    m := ZERO;
    if xs != [] {
      m := Greatest(Init(xs));
      if Less(m, Last(xs)) {
        m := Last(xs);
      }
    }
  }

  lemma TextOfVersion(v: Version)
    ensures ParseSemver(Print(v)) == v
  {
    hide ParseSemver, Print;
    PrintThenParse(v, "", "");
    assert "" + Print(v) + "" == Print(v);
  }

  // ---------------------------------------------------------------------
  // Items as they come
  // ---------------------------------------------------------------------

  /** Versions on the same side of every bound the item names get the same verdict, from both. */
  lemma {:induction false} SameSideSameVerdict(ranges: seq<EventRange>, a: string, b: string)
    requires ranges != [] && AllWellFormed(ranges)
    requires forall x :: x in NamedVersions(ranges) ==> (AtMost(x, ParseSemver(a)) <==> AtMost(x, ParseSemver(b)))
    ensures VulnerableInSome(ranges, ParseSemver(a)) <==> VulnerableInSome(ranges, ParseSemver(b))
    ensures Contains(ItemRanges(ranges), a) <==> Contains(ItemRanges(ranges), b)
  {
    hide ParseSemver, Vulnerable, Contains, ItemRanges, WellFormed, CoversAt, NamedVersions;
    NamedInItem(ranges);
    var u, v := ParseSemver(a), ParseSemver(b);
    forall r | r in ranges ensures Vulnerable(r.events, u) <==> Vulnerable(r.events, v) {
      SameSideSameEvaluation(r.events, u, v);
    }
    if SomethingFixed(ranges) {
      ContainedInClosed(ranges, a);
      ContainedInClosed(ranges, b);
      forall r, j | r in ranges ensures CoversAt(r.events, u, j) <==> CoversAt(r.events, v, j) {
        SameSideSameCover(r.events, u, v, j);
      }
    } else {
      SameSideOfOpenRange(ranges, a, b);
    }
  }

  lemma SameSideSameEvaluation(events: seq<Event>, u: Version, v: Version)
    requires WellFormed(events)
    requires forall i :: 0 <= i < |events| ==> (AtMost(VersionOf(events[i]), u) <==> AtMost(VersionOf(events[i]), v))
    ensures Vulnerable(events, u) <==> Vulnerable(events, v)
  {
    hide Vulnerable, VersionOf;
    VulnerableByIndex(events, u);
    VulnerableByIndex(events, v);
    assert forall i :: SwitchedOnAt(events, u, i) <==> SwitchedOnAt(events, v, i);
  }

  lemma SameSideSameCover(events: seq<Event>, u: Version, v: Version, j: int)
    requires WellFormed(events) && (AtMost(ZERO, u) <==> AtMost(ZERO, v))
    requires forall i :: 0 <= i < |events| ==> (AtMost(VersionOf(events[i]), u) <==> AtMost(VersionOf(events[i]), v))
    ensures CoversAt(events, u, j) <==> CoversAt(events, v, j)
  {
    hide VersionOf, StartOf;
    if 0 <= j < |events| {
      var k := StartByIndex(events, j);
      assert AtMost(VersionOf(events[j]), u) <==> AtMost(VersionOf(events[j]), v);
    }
  }

  lemma OpenRange(ranges: seq<EventRange>, version: string)
    requires ranges != [] && AllWellFormed(ranges) && !SomethingFixed(ranges)
    ensures Contains(ItemRanges(ranges), version) <==>
            Last(ranges).events != [] && AtMost(VersionOf(Last(Last(ranges).events)), ParseSemver(version))
  {
    hide ParseSemver, ClosedRangesOf, VersionInRange;
    var events := Last(ranges).events;
    NothingClosed(ranges);
    ItemRangesWhenNothingIsClosed(ranges);
    assert Last(ranges) in ranges;
    if events != [] {
      assert Last(events) in events && !IsFixed(events[|events| - 1]);
      RangeIsAnInterval(version, Last(events).introduced.value, None);
      assert ItemRanges(ranges) == [Range("SEMVER", Last(events).introduced.value, None)];
      assert ItemRanges(ranges)[0] in ItemRanges(ranges);
    }
  }

  lemma SameSideOfOpenRange(ranges: seq<EventRange>, a: string, b: string)
    requires ranges != [] && AllWellFormed(ranges) && !SomethingFixed(ranges)
    requires forall x :: x in NamedVersions(ranges) ==> (AtMost(x, ParseSemver(a)) <==> AtMost(x, ParseSemver(b)))
    ensures Contains(ItemRanges(ranges), a) <==> Contains(ItemRanges(ranges), b)
  {
    hide ParseSemver, Contains, ItemRanges, NamedVersions, VersionOf;
    NamedInItem(ranges);
    OpenRange(ranges, a);
    OpenRange(ranges, b);
    assert Last(ranges) in ranges;
    var events := Last(ranges).events;
    if events != [] {
      assert VersionOf(events[|events| - 1]) in NamedVersions(ranges);
    }
  }

  ghost predicate MissesAt(ranges: seq<EventRange>, v: Version)
    requires ranges != []
  {
    VulnerableInSome(ranges, v) && !Contains(ItemRanges(ranges), Print(v))
  }

  ghost predicate AddsAt(ranges: seq<EventRange>, v: Version)
    requires ranges != []
  {
    !VulnerableInSome(ranges, v) && Contains(ItemRanges(ranges), Print(v))
  }

  lemma {:induction false} NamedStandIn(ranges: seq<EventRange>, version: string) returns (u: Version)
    requires ranges != [] && AllWellFormed(ranges)
    ensures u in NamedVersions(ranges)
    ensures VulnerableInSome(ranges, u) <==> VulnerableInSome(ranges, ParseSemver(version))
    ensures Contains(ItemRanges(ranges), Print(u)) <==> Contains(ItemRanges(ranges), version)
  {
    hide ParseSemver, Print, VulnerableInSome, Contains, ItemRanges, WellFormed, NamedVersions;
    NamedInItem(ranges);
    u := NearestBelow(NamedVersions(ranges), ParseSemver(version));
    TextOfVersion(u);
    SameSideSameVerdict(ranges, Print(u), version);
  }

  /**
   * Whatever the events and their order: the translation of an item is right
   * for all versions exactly when it is right for those its events name.
   */
  lemma {:induction false} DecidedByNamedVersions(ranges: seq<EventRange>)
    requires ranges != [] && AllWellFormed(ranges)
    ensures NeverMisses(ranges) <==> forall u :: u in NamedVersions(ranges) ==> !MissesAt(ranges, u)
    ensures NeverAdds(ranges) <==> forall u :: u in NamedVersions(ranges) ==> !AddsAt(ranges, u)
  {
    hide ParseSemver, Print, VulnerableInSome, Contains, ItemRanges, WellFormed, NamedVersions;
    forall u: Version ensures ParseSemver(Print(u)) == u {
      TextOfVersion(u);
    }
    if !NeverMisses(ranges) {
      var version :| VulnerableInSome(ranges, ParseSemver(version)) && !Contains(ItemRanges(ranges), version);
      var u := NamedStandIn(ranges, version);
      assert MissesAt(ranges, u);
    }
    if !NeverAdds(ranges) {
      var version :| Contains(ItemRanges(ranges), version) && !VulnerableInSome(ranges, ParseSemver(version));
      var u := NamedStandIn(ranges, version);
      assert AddsAt(ranges, u);
    }
  }

  /** An open range beside anything fixed is dropped, and with it every version from some point on. */
  lemma OpenRangeIsLost(ranges: seq<EventRange>, r: EventRange, i: nat)
    requires ranges != [] && AllWellFormed(ranges) && SomethingFixed(ranges)
    requires r in ranges && StaysOpenAt(r.events, i)
    ensures !NeverMisses(ranges)
  {
    hide ParseSemver, Print, Vulnerable, Contains, ItemRanges, NamedVersions, SomethingFixed, VersionOf, StartOf;
    NamedInItem(ranges);
    var m := Greatest(NamedVersions(ranges));
    TextOfVersion(m);
    VulnerableByIndex(r.events, m);
    assert SwitchedOnAt(r.events, m, i);
    ContainedInClosed(ranges, Print(m));
    assert VulnerableInSome(ranges, ParseSemver(Print(m))) && !Contains(ItemRanges(ranges), Print(m));
  }

  /** The last range of the item is kept, and opens at or before this event. */
  predicate LastOpensBy(ranges: seq<EventRange>, e: Event)
    requires ranges != []
  {
    var last := Last(ranges).events;
    last != [] && AtMost(VersionOf(Last(last)), VersionOf(e))
  }

  /** With nothing fixed, the one range kept must open before everything else does. */
  lemma NothingFixedExactly(ranges: seq<EventRange>)
    requires ranges != [] && AllWellFormed(ranges) && !SomethingFixed(ranges)
    ensures NeverMisses(ranges) <==> forall r, e :: r in ranges && e in r.events ==> LastOpensBy(ranges, e)
  {
    hide ParseSemver, Print, Vulnerable, Contains, ItemRanges, VersionOf;
    if NeverMisses(ranges) {
      forall r: EventRange, e: Event | r in ranges && e in r.events ensures LastOpensBy(ranges, e) {
        EveryEventIsSeen(ranges, r, e);
      }
    } else {
      var version :| VulnerableInSome(ranges, ParseSemver(version)) && !Contains(ItemRanges(ranges), version);
      var r :| r in ranges && Vulnerable(r.events, ParseSemver(version));
      VulnerableByIndex(r.events, ParseSemver(version));
      var i :| SwitchedOnAt(r.events, ParseSemver(version), i);
      OpenRange(ranges, version);
      assert r.events[i] in r.events && !LastOpensBy(ranges, r.events[i]);
    }
  }

  lemma {:induction false} EveryEventIsSeen(ranges: seq<EventRange>, r: EventRange, e: Event)
    requires ranges != [] && AllWellFormed(ranges) && !SomethingFixed(ranges) && NeverMisses(ranges)
    requires r in ranges && e in r.events
    ensures LastOpensBy(ranges, e)
  {
    hide ParseSemver, Print, Vulnerable, Contains, ItemRanges, VersionOf;
    var i :| 0 <= i < |r.events| && r.events[i] == e;
    var v := VersionOf(e);
    assert !HasFixed(r.events);
    assert IsIntroduced(e);
    VulnerableByIndex(r.events, v);
    assert SwitchedOnAt(r.events, v, i);
    TextOfVersion(v);
    assert VulnerableInSome(ranges, ParseSemver(Print(v)));
    OpenRange(ranges, Print(v));
  }

  // ---------------------------------------------------------------------
  // Items whose introduced events are fixed at once, or never
  // ---------------------------------------------------------------------

  /** The introduced event at i is fixed at once and not backwards, or is listed last and never fixed. */
  ghost predicate SettledAt(events: seq<Event>, i: nat)
    requires i < |events|
  {
    if i + 1 < |events| then IsFixed(events[i + 1]) && AtMost(VersionOf(events[i]), VersionOf(events[i + 1]))
    else StaysOpenAt(events, i)
  }

  ghost predicate ClosedOrOpen(events: seq<Event>) {
    && WellFormed(events)
    && forall i :: 0 <= i < |events| && IsIntroduced(events[i]) ==> SettledAt(events, i)
  }

  /** So it is for sorted events, each introduced one fixed at once or listed last. */
  lemma {:induction false} SortedIsClosedOrOpen(events: seq<Event>)
    requires WellFormed(events) && Sorted(events)
    requires forall i :: 0 <= i < |events| - 1 && IsIntroduced(events[i]) ==> IsFixed(events[i + 1])
    ensures ClosedOrOpen(events)
  {
    hide VersionOf, Less;
    forall i | 0 <= i < |events| && IsIntroduced(events[i]) ensures SettledAt(events, i) {
      assert events[i] in events;
      forall j | 0 <= j < i ensures Earlier(events, j, i) {
        TupleOrderIsPrecedence(VersionOf(events[j]), VersionOf(events[i]));
      }
    }
  }

  predicate EndsOpen(events: seq<Event>) {
    events != [] && IsIntroduced(Last(events))
  }

  ghost predicate NoneEndsOpen(ranges: seq<EventRange>) {
    forall r :: r in ranges ==> !EndsOpen(r.events)
  }

  /** Nothing is fixed, and the last range opens no later than any other. */
  ghost predicate LastOpensFirst(ranges: seq<EventRange>)
    requires ranges != []
  {
    && !SomethingFixed(ranges) && EndsOpen(Last(ranges).events)
    && forall r :: r in ranges && EndsOpen(r.events) ==>
         AtMost(VersionOf(Last(Last(ranges).events)), VersionOf(Last(r.events)))
  }

  /** No vulnerable version is missed exactly when no range ends open, or nothing is fixed and the last range opens first. */
  lemma {:induction false} NeverMissesExactly(ranges: seq<EventRange>)
    requires ranges != [] && forall r :: r in ranges ==> ClosedOrOpen(r.events)
    ensures NeverMisses(ranges) <==> NoneEndsOpen(ranges) || LastOpensFirst(ranges)
  {
    hide ParseSemver, Vulnerable, Contains, ItemRanges, VersionOf, WellFormed;
    assert AllWellFormed(ranges);
    if NoneEndsOpen(ranges) {
      assert forall r :: r in ranges ==> FixesWhatItIntroduces(r.events);
      ItemMissesNothing(ranges);
    } else if SomethingFixed(ranges) {
      var r :| r in ranges && EndsOpen(r.events);
      var last := |r.events| - 1;
      assert SettledAt(r.events, last);
      OpenRangeIsLost(ranges, r, last);
    } else {
      NothingFixedExactly(ranges);
      OpenItemsOpenFirst(ranges);
    }
  }

  lemma OpenItemsOpenFirst(ranges: seq<EventRange>)
    requires ranges != [] && !SomethingFixed(ranges) && !NoneEndsOpen(ranges)
    requires forall r :: r in ranges ==> ClosedOrOpen(r.events)
    ensures LastOpensFirst(ranges) <==> forall r, e :: r in ranges && e in r.events ==> LastOpensBy(ranges, e)
  {
    hide VersionOf, ClosedOrOpen;
    forall r | r in ranges ensures |r.events| <= 1 && (r.events != [] ==> EndsOpen(r.events)) {
      OpenRangesAreSingle(r.events);
    }
    if LastOpensFirst(ranges) {
      forall r: EventRange, e: Event | r in ranges && e in r.events ensures LastOpensBy(ranges, e) {
        assert EndsOpen(r.events) && e == Last(r.events);
      }
    }
    if forall r, e :: r in ranges && e in r.events ==> LastOpensBy(ranges, e) {
      forall r | r in ranges && EndsOpen(r.events) ensures LastOpensBy(ranges, Last(r.events)) {
        assert Last(r.events) in r.events;
      }
      var r :| r in ranges && EndsOpen(r.events);
      assert LastOpensBy(ranges, Last(r.events)) && Last(ranges) in ranges;
    }
  }

  lemma OpenRangesAreSingle(events: seq<Event>)
    requires ClosedOrOpen(events) && !HasFixed(events)
    ensures |events| <= 1 && (events != [] ==> EndsOpen(events))
  {
    hide VersionOf;
    if events != [] {
      assert events[0] in events && !IsFixed(events[0]);
      assert SettledAt(events, 0);
    }
  }

  /** Sorted ranges whose fixed events were all introduced at once before: nothing unaffected is reported. */
  lemma {:induction false} AlternatingAddsNothing(ranges: seq<EventRange>)
    requires ranges != []
    requires forall r :: r in ranges ==> WellFormed(r.events) && Sorted(r.events) && EveryFixedWasIntroduced(r.events)
    ensures NeverAdds(ranges)
  {
    hide ParseSemver, Vulnerable, Contains, ItemRanges, VersionOf, ClosedRanges, ClosedRangesOf, Sorted,
      EveryFixedWasIntroduced, WellFormed;
    assert AllWellFormed(ranges);
    forall version | Contains(ItemRanges(ranges), version) ensures VulnerableInSome(ranges, ParseSemver(version)) {
      var v := ParseSemver(version);
      if SomethingFixed(ranges) {
        NothingClosed(ranges);
        ItemRangesWhenNothingIsClosed(ranges);
        ContainsInSome(ranges, version);
        var r :| r in ranges && Contains(ClosedRanges(r.kind, r.events), version);
        NothingAdded(r.kind, r.events, version);
      } else {
        OpenRange(ranges, version);
        LastOpenIsVulnerable(Last(ranges), v);
        assert Last(ranges) in ranges;
      }
    }
  }

  lemma LastOpenIsVulnerable(r: EventRange, v: Version)
    requires WellFormed(r.events) && !HasFixed(r.events)
    requires r.events != [] && AtMost(VersionOf(Last(r.events)), v)
    ensures Vulnerable(r.events, v)
  {
    hide Vulnerable, VersionOf;
    assert Last(r.events) in r.events && !IsFixed(r.events[|r.events| - 1]);
    VulnerableByIndex(r.events, v);
    assert SwitchedOnAt(r.events, v, |r.events| - 1);
  }

  /** Sorted, alternating ranges, the last event of each open or not: the condition under which an item is exact, and no other. */
  lemma ItemIsExactWhen(ranges: seq<EventRange>)
    requires ranges != []
    requires forall r :: r in ranges ==>
      ClosedOrOpen(r.events) && Sorted(r.events) && EveryFixedWasIntroduced(r.events)
    ensures (forall version :: Contains(ItemRanges(ranges), version) <==> VulnerableInSome(ranges, ParseSemver(version)))
       <==> NoneEndsOpen(ranges) || LastOpensFirst(ranges)
  {
    hide ParseSemver, VulnerableInSome, ItemRanges, Contains, EveryFixedWasIntroduced, Sorted, WellFormed,
      NoneEndsOpen, LastOpensFirst;
    NeverMissesExactly(ranges);
    AlternatingAddsNothing(ranges);
  }
}
