/** When the ranges taken from OSV events mean what the OSV evaluation algorithm says, and when they do not. */
module OsvExactness {
  import opened Sequences
  import opened Semver
  import opened OsvRanges
  import opened OsvEvaluation

  // ---------------------------------------------------------------------
  // Event lists
  // ---------------------------------------------------------------------

  ghost predicate StrictlySorted(events: seq<Event>) {
    forall i, j :: 0 <= i < j < |events| ==> Less(VersionOf(events[i]), VersionOf(events[j]))
  }

  /** Every introduced event is followed at once by a fixed one. */
  ghost predicate EveryIntroducedIsFixed(events: seq<Event>) {
    forall i :: 0 <= i < |events| && IsIntroduced(events[i]) ==> i + 1 < |events| && IsFixed(events[i + 1])
  }

  /** Every fixed event follows an introduced one at once, but a leading one may fix the least version. */
  ghost predicate EveryFixedWasIntroduced(events: seq<Event>) {
    forall j :: 0 <= j < |events| && IsFixed(events[j]) ==>
      if j == 0 then VersionOf(events[0]) == ZERO else IsIntroduced(events[j - 1])
  }

  /** A fixed event right after an introduced one does not come before it in version. */
  ghost predicate PairsGoForward(events: seq<Event>) {
    forall i :: 0 <= i < |events| - 1 && IsIntroduced(events[i]) && IsFixed(events[i + 1]) ==>
      AtMost(VersionOf(events[i]), VersionOf(events[i + 1]))
  }

  // ---------------------------------------------------------------------
  // The produced ranges by index
  // ---------------------------------------------------------------------

  /** Where the last introduced event stands; -1 when there is none. */
  lemma {:induction false} LastIntroducedByIndex(events: seq<Event>) returns (i: int)
    ensures -1 <= i < |events|
    ensures LastIntroduced(events) == if i == -1 then None else events[i].introduced
    ensures i >= 0 ==> IsIntroduced(events[i])
    ensures forall j :: i < j < |events| ==> !IsIntroduced(events[j])
  {
    if events == [] {
      i := -1;
    } else if Last(events).introduced.Some? {
      i := |events| - 1;
    } else {
      i := LastIntroducedByIndex(Init(events));
    }
  }

  /** The range that the fixed event at j closes. */
  function ClosedAt(kind: Option<string>, events: seq<Event>, j: nat): Range
    requires j < |events|
  {
    Range(KindOf(kind), OrZero(LastIntroduced(events[..j + 1])), events[j].fixed)
  }

  lemma {:induction false} ClosedAtPrefix(kind: Option<string>, events: seq<Event>, j: nat)
    requires j < |events|
    ensures j < |events| - 1 ==> ClosedAt(kind, events, j) == ClosedAt(kind, Init(events), j)
    ensures j == |events| - 1 ==>
      ClosedAt(kind, events, j) == Range(KindOf(kind), OrZero(LastIntroduced(events)), Last(events).fixed)
  {
    if j == |events| - 1 {
      assert events[..j + 1] == events;
    } else {
      assert events[..j + 1] == Init(events)[..j + 1];
    }
  }

  ghost predicate ClosedSomewhere(kind: Option<string>, events: seq<Event>, r: Range) {
    exists j :: 0 <= j < |events| && IsFixed(events[j]) && r == ClosedAt(kind, events, j)
  }

  lemma {:induction false} ClosedByIndex(kind: Option<string>, events: seq<Event>, r: Range)
    ensures r in ClosedRanges(kind, events) <==> ClosedSomewhere(kind, events, r)
  {
    hide ClosedAt, LastIntroduced;
    if events != [] {
      var front, n := Init(events), |events| - 1;
      ClosedByIndex(kind, front, r);
      ClosedAtPrefix(kind, events, n);
      if j :| 0 <= j < |events| && IsFixed(events[j]) && r == ClosedAt(kind, events, j) {
        ClosedAtPrefix(kind, events, j);
        assert j < n ==> front[j] == events[j];
      }
      if j :| 0 <= j < |front| && IsFixed(front[j]) && r == ClosedAt(kind, front, j) {
        ClosedAtPrefix(kind, events, j);
        assert front[j] == events[j];
      }
    }
  }

  /** Where the interval closed at j starts. */
  function StartOf(events: seq<Event>, j: nat): Version
    requires j < |events|
  {
    ParseSemver(OrZero(LastIntroduced(events[..j + 1])))
  }

  ghost predicate CoversAt(events: seq<Event>, v: Version, j: int) {
    0 <= j < |events| && IsFixed(events[j]) && AtMost(StartOf(events, j), v) && Less(v, VersionOf(events[j]))
  }

  lemma ContainsByIndex(kind: Option<string>, events: seq<Event>, version: string)
    requires WellFormed(events)
    ensures Contains(ClosedRanges(kind, events), version) <==>
            exists j :: CoversAt(events, ParseSemver(version), j)
  {
    hide ParseSemver, LastIntroduced, ClosedRanges;
    forall j | 0 <= j < |events| && IsFixed(events[j])
      ensures CoversAt(events, ParseSemver(version), j) <==>
        VersionInRange(version, ClosedAt(kind, events, j).introduced, ClosedAt(kind, events, j).fixed)
    {
      assert events[j] in events;
      RangeIsAnInterval(version, ClosedAt(kind, events, j).introduced, ClosedAt(kind, events, j).fixed);
    }
    if Contains(ClosedRanges(kind, events), version) {
      var r :| r in ClosedRanges(kind, events) && VersionInRange(version, r.introduced, r.fixed);
      ClosedByIndex(kind, events, r);
    }
    if j :| CoversAt(events, ParseSemver(version), j) {
      ClosedByIndex(kind, events, ClosedAt(kind, events, j));
    }
  }

  /** The interval closed at j starts at the nearest introduced event before it, or at the least version. */
  lemma StartByIndex(events: seq<Event>, j: nat) returns (i: int)
    requires j < |events| && WellFormed(events)
    ensures -1 <= i <= j
    ensures StartOf(events, j) == if i == -1 then ZERO else VersionOf(events[i])
    ensures i >= 0 ==> IsIntroduced(events[i])
    ensures forall k :: i < k <= j ==> !IsIntroduced(events[k])
  {
    hide ParseSemver, LastIntroduced;
    EmptyAndZeroAreLeast();
    i := LastIntroducedByIndex(events[..j + 1]);
    if i >= 0 {
      assert events[i] in events;
    }
  }

  // ---------------------------------------------------------------------
  // Sufficient, for one event list
  // ---------------------------------------------------------------------

  /** In any order: when every introduced event is fixed at once and not backwards, no vulnerable version is missed. */
  lemma {:induction false} NothingMissed(kind: Option<string>, events: seq<Event>, version: string)
    requires FixesWhatItIntroduces(events)
    ensures Vulnerable(events, ParseSemver(version)) ==> Contains(ClosedRanges(kind, events), version)
  {
    hide ParseSemver, Vulnerable, LastIntroduced, ClosedRanges, Contains;
    var v := ParseSemver(version);
    VulnerableByIndex(events, v);
    ContainsByIndex(kind, events, version);
    if i :| SwitchedOnAt(events, v, i) {
      assert IsIntroduced(events[i]) && IsFixed(events[i + 1]);
      assert !Earlier(events, i + 1, i);
      assert events[i] in events && events[i + 1] in events;
      var k := StartByIndex(events, i + 1);
      assert k == i;
      assert CoversAt(events, v, i + 1);
    }
  }

  /** Sorted, and every fixed event introduced at once before: nothing is called vulnerable that is not. */
  lemma {:induction false} NothingAdded(kind: Option<string>, events: seq<Event>, version: string)
    requires WellFormed(events) && Sorted(events) && EveryFixedWasIntroduced(events)
    requires Contains(ClosedRanges(kind, events), version)
    ensures Vulnerable(events, ParseSemver(version))
  {
    hide ParseSemver, Vulnerable, LastIntroduced, ClosedRanges;
    var v := ParseSemver(version);
    ContainsByIndex(kind, events, version);
    var j :| CoversAt(events, v, j);
    var k := StartByIndex(events, j);
    assert events[j] in events;
    assert j > 0 && IsIntroduced(events[j - 1]) && !IsIntroduced(events[j]);
    assert k == j - 1 && events[k] in events;
    assert SwitchedOnAt(events, v, j - 1);
    VulnerableByIndex(events, v);
  }

  // ---------------------------------------------------------------------
  // Whole items
  // ---------------------------------------------------------------------

  /** The ranges of an item that lists at least one event range. */
  function ItemRanges(ranges: seq<EventRange>): seq<Range>
    requires ranges != []
  {
    LastItemRanges([Affected("", "", ranges, [])])
  }

  /** They do not depend on the items before it. */
  lemma ItemsWithRangesAreIndependent(items: seq<Affected>)
    requires items != [] && Last(items).ranges != []
    ensures LastItemRanges(items) == ItemRanges(Last(items).ranges)
  {
  }

  lemma ContainsConcat(a: seq<Range>, b: seq<Range>, version: string)
    ensures Contains(a + b, version) <==> Contains(a, version) || Contains(b, version)
  {
    hide VersionInRange;
    assert forall r :: r in a + b <==> r in a || r in b;
  }

  lemma {:induction false} ContainsInSome(ranges: seq<EventRange>, version: string)
    ensures Contains(ClosedRangesOf(ranges), version) <==>
            exists r :: r in ranges && Contains(ClosedRanges(r.kind, r.events), version)
  {
    hide Contains, ClosedRanges;
    if ranges == [] {
      NoRangesContainNothing(version);
    } else {
      ContainsInSome(Init(ranges), version);
      ContainsConcat(ClosedRangesOf(Init(ranges)), ClosedRanges(Last(ranges).kind, Last(ranges).events), version);
      assert forall r :: r in ranges <==> r in Init(ranges) || r == Last(ranges);
    }
  }

  lemma NoRangesContainNothing(version: string)
    ensures !Contains([], version)
  {
  }

  ghost predicate NeverMisses(ranges: seq<EventRange>)
    requires ranges != []
  {
    forall version :: VulnerableInSome(ranges, ParseSemver(version)) ==> Contains(ItemRanges(ranges), version)
  }

  ghost predicate NeverAdds(ranges: seq<EventRange>)
    requires ranges != []
  {
    forall version :: Contains(ItemRanges(ranges), version) ==> VulnerableInSome(ranges, ParseSemver(version))
  }

  ghost predicate FixesWhatItIntroduces(events: seq<Event>) {
    WellFormed(events) && EveryIntroducedIsFixed(events) && PairsGoForward(events)
  }

  ghost predicate Alternates(events: seq<Event>) {
    WellFormed(events) && Sorted(events) && EveryIntroducedIsFixed(events) && EveryFixedWasIntroduced(events)
  }

  lemma PairsOfSorted(events: seq<Event>)
    requires Sorted(events) || StrictlySorted(events)
    ensures PairsGoForward(events)
  {
    hide VersionOf;
  }

  /** Every introduced event fixed at once and not backwards, in every range: the scanner can only over-approximate. */
  lemma {:induction false} ItemMissesNothing(ranges: seq<EventRange>)
    requires ranges != [] && forall r :: r in ranges ==> FixesWhatItIntroduces(r.events)
    ensures NeverMisses(ranges)
  {
    hide ParseSemver, Vulnerable, Contains, ClosedRanges, VersionInRange, FixesWhatItIntroduces, ItemRanges;
    forall version | VulnerableInSome(ranges, ParseSemver(version)) ensures Contains(ItemRanges(ranges), version) {
      var r :| r in ranges && Vulnerable(r.events, ParseSemver(version));
      NothingMissed(r.kind, r.events, version);
      ContainsInSome(ranges, version);
      ClosedMeansNoOpenRange(ranges, version);
    }
  }

  lemma ClosedMeansNoOpenRange(ranges: seq<EventRange>, version: string)
    requires ranges != [] && Contains(ClosedRangesOf(ranges), version)
    ensures ItemRanges(ranges) == ClosedRangesOf(ranges)
  {
    hide ParseSemver, VersionInRange;
    assert Init([Affected("", "", ranges, [])]) == [];
  }

  lemma NoClosedRangeNoIntroduced(r: EventRange)
    requires FixesWhatItIntroduces(r.events) && ClosedRanges(r.kind, r.events) == []
    ensures LastIntroduced(r.events) == None
  {
    hide ClosedAt, ClosedRanges, LastIntroduced, WellFormed;
    var i := LastIntroducedByIndex(r.events);
    if i >= 0 {
      assert IsFixed(r.events[i + 1]);
      ClosedByIndex(r.kind, r.events, ClosedAt(r.kind, r.events, i + 1));
      assert false;
    }
  }

  lemma ItemRangesWhenNothingIsClosed(ranges: seq<EventRange>)
    requires ranges != []
    ensures ItemRanges(ranges) ==
            if ClosedRangesOf(ranges) == [] && IsBound(LastIntroduced(Last(ranges).events))
            then [Range("SEMVER", LastIntroduced(Last(ranges).events).value, None)] else ClosedRangesOf(ranges)
  {
    hide ClosedRangesOf, LastIntroduced;
  }

  /** Alternating, sorted and closed event lists: the ranges say exactly what the OSV algorithm says. */
  lemma ItemIsExact(ranges: seq<EventRange>, version: string)
    requires ranges != [] && forall r :: r in ranges ==> Alternates(r.events)
    ensures Contains(ItemRanges(ranges), version) <==> VulnerableInSome(ranges, ParseSemver(version))
  {
    hide ParseSemver, Vulnerable, Contains, ClosedRanges, VersionInRange, FixesWhatItIntroduces, ItemRanges,
      LastIntroduced, Sorted, EveryFixedWasIntroduced;
    assert Alternates(Last(ranges).events);
    ItemRangesWhenNothingIsClosed(ranges);
    if ClosedRangesOf(ranges) == [] {
      assert ClosedRanges(Last(ranges).kind, Last(ranges).events) == [];
      AlternatingFixes(ranges);
      NoClosedRangeNoIntroduced(Last(ranges));
    }
    assert ItemRanges(ranges) == ClosedRangesOf(ranges);
    ContainsInSome(ranges, version);
    forall r | r in ranges && Contains(ClosedRanges(r.kind, r.events), version)
      ensures Vulnerable(r.events, ParseSemver(version))
    {
      AddsNothing(r, version);
    }
    if VulnerableInSome(ranges, ParseSemver(version)) {
      AlternatingFixes(ranges);
      ItemMissesNothing(ranges);
    }
  }

  lemma AlternatingFixes(ranges: seq<EventRange>)
    requires forall r :: r in ranges ==> Alternates(r.events)
    ensures forall r :: r in ranges ==> FixesWhatItIntroduces(r.events)
  {
    hide WellFormed, Sorted, EveryIntroducedIsFixed, PairsGoForward;
    forall r | r in ranges ensures FixesWhatItIntroduces(r.events) {
      PairsOfSorted(r.events);
    }
  }

  lemma AddsNothing(r: EventRange, version: string)
    requires Alternates(r.events) && Contains(ClosedRanges(r.kind, r.events), version)
    ensures Vulnerable(r.events, ParseSemver(version))
  {
    NothingAdded(r.kind, r.events, version);
  }

  // ---------------------------------------------------------------------
  // Necessary and sufficient, for an item with one event range
  // ---------------------------------------------------------------------

  ghost predicate HasFixed(events: seq<Event>) {
    exists j :: 0 <= j < |events| && IsFixed(events[j])
  }

  lemma SingleRange(r: EventRange)
    requires WellFormed(r.events)
    ensures HasFixed(r.events) ==> ItemRanges([r]) == ClosedRanges(r.kind, r.events)
    ensures !HasFixed(r.events) && r.events != [] ==>
      ItemRanges([r]) == [Range("SEMVER", Last(r.events).introduced.value, None)] && IsBound(Last(r.events).introduced)
    ensures r.events == [] ==> ItemRanges([r]) == []
  {
    hide ClosedAt, ItemRanges;
    ItemRangesWhenNothingIsClosed([r]);
    assert Init([r]) == [];
    assert ClosedRangesOf([r]) == ClosedRanges(r.kind, r.events);
    if j :| 0 <= j < |r.events| && IsFixed(r.events[j]) {
      ClosedByIndex(r.kind, r.events, ClosedAt(r.kind, r.events, j));
    }
    if !HasFixed(r.events) && r.events != [] {
      assert Last(r.events) in r.events && !IsFixed(r.events[|r.events| - 1]);
      if ClosedRanges(r.kind, r.events) != [] {
        ClosedByIndex(r.kind, r.events, ClosedRanges(r.kind, r.events)[0]);
        assert false;
      }
    }
  }

  /** A version that stands for an event: the text of the event itself. */
  function TextOf(e: Event): string {
    if IsIntroduced(e) then e.introduced.value else if IsFixed(e) then e.fixed.value else ""
  }

  /** An introduced event that no fixed event follows: its own version is missed. */
  lemma {:induction false} MissedVersion(r: EventRange, i: nat)
    requires WellFormed(r.events) && StrictlySorted(r.events) && i < |r.events|
    requires HasFixed(r.events) || i + 1 < |r.events|
    requires IsIntroduced(r.events[i]) && !(i + 1 < |r.events| && IsFixed(r.events[i + 1]))
    ensures !NeverMisses([r])
  {
    hide ParseSemver, Vulnerable, LastIntroduced, ClosedRanges, ItemRanges, VersionInRange;
    var events, version := r.events, TextOf(r.events[i]);
    var v := ParseSemver(version);
    assert SwitchedOnAt(events, v, i);
    VulnerableByIndex(events, v);
    SingleRange(r);
    if HasFixed(events) {
      ContainsByIndex(r.kind, events, version);
      forall j ensures !CoversAt(events, v, j) {
        if 0 <= j < |events| && IsFixed(events[j]) {
          NotCovered(events, i, j);
        }
      }
    } else {
      OpenRangeMisses(r, i, version);
    }
    assert !Contains(ItemRanges([r]), version);
  }

  lemma {:induction false} NotCovered(events: seq<Event>, i: nat, j: nat)
    requires WellFormed(events) && StrictlySorted(events) && i < |events| && j < |events| && IsFixed(events[j])
    requires IsIntroduced(events[i]) && !(i + 1 < |events| && IsFixed(events[i + 1]))
    ensures !CoversAt(events, VersionOf(events[i]), j)
  {
    hide ParseSemver, LastIntroduced;
    if j <= i {
      assert AtMost(VersionOf(events[j]), VersionOf(events[i]));
    } else {
      assert events[i + 1] in events;
      var k := StartByIndex(events, j);
      assert i + 1 <= k;
      assert Less(VersionOf(events[i]), VersionOf(events[k]));
    }
  }

  lemma OpenRangeMisses(r: EventRange, i: nat, version: string)
    requires WellFormed(r.events) && StrictlySorted(r.events) && i < |r.events| - 1 && !HasFixed(r.events)
    requires ParseSemver(version) == VersionOf(r.events[i])
    requires ItemRanges([r]) == [Range("SEMVER", Last(r.events).introduced.value, None)]
    ensures !Contains(ItemRanges([r]), version)
  {
    hide ParseSemver, ItemRanges;
    RangeIsAnInterval(version, Last(r.events).introduced.value, None);
    assert Last(r.events) in r.events && !IsFixed(r.events[|r.events| - 1]);
    assert Less(VersionOf(r.events[i]), VersionOf(Last(r.events)));
  }

  /** A fixed event that no introduced event precedes: an unaffected version is called vulnerable. */
  lemma {:induction false} AddedVersion(r: EventRange, j: nat)
    requires WellFormed(r.events) && StrictlySorted(r.events) && j < |r.events| && IsFixed(r.events[j])
    requires if j == 0 then VersionOf(r.events[0]) != ZERO else !IsIntroduced(r.events[j - 1])
    ensures !NeverAdds([r])
  {
    hide ParseSemver, Vulnerable, LastIntroduced, ClosedRanges, ItemRanges, VersionInRange;
    var events, version := r.events, if j == 0 then "" else TextOf(r.events[j - 1]);
    var v := ParseSemver(version);
    EmptyAndZeroAreLeast();
    assert events[j] in events;
    if j > 0 {
      assert events[j - 1] in events && Less(VersionOf(events[j - 1]), VersionOf(events[j]));
    }
    var k := StartByIndex(events, j);
    assert k >= 0 ==> k < j - 1 && Less(VersionOf(events[k]), VersionOf(events[j - 1]));
    assert CoversAt(events, v, j);
    ContainsByIndex(r.kind, events, version);
    SingleRange(r);
    VulnerableByIndex(events, v);
    forall i ensures !SwitchedOnAt(events, v, i) {
    }
  }

  /** No vulnerable version is missed exactly when every introduced event is fixed at once, or the list is one event. */
  lemma {:induction false} OneRangeNeverMisses(r: EventRange)
    requires WellFormed(r.events) && StrictlySorted(r.events)
    ensures NeverMisses([r]) <==> |r.events| == 1 || EveryIntroducedIsFixed(r.events)
  {
    hide ParseSemver, Vulnerable, LastIntroduced, ClosedRanges, ItemRanges, VersionInRange, Contains;
    var events := r.events;
    if EveryIntroducedIsFixed(events) {
      PairsOfSorted(events);
      assert FixesWhatItIntroduces(events);
      ItemMissesNothing([r]);
    } else if |events| == 1 {
      forall version | VulnerableInSome([r], ParseSemver(version)) ensures Contains(ItemRanges([r]), version) {
        SingleOpenEvent(r, version);
      }
    } else {
      var i :| 0 <= i < |events| && IsIntroduced(events[i]) && !(i + 1 < |events| && IsFixed(events[i + 1]));
      if HasFixed(events) {
        MissedVersion(r, i);
      } else {
        assert events[0] in events && events[1] in events && !IsFixed(events[0]) && !IsFixed(events[1]);
        MissedVersion(r, 0);
      }
    }
  }

  lemma SingleOpenEvent(r: EventRange, version: string)
    requires WellFormed(r.events) && |r.events| == 1 && IsIntroduced(r.events[0])
    ensures Vulnerable(r.events, ParseSemver(version)) <==> Contains(ItemRanges([r]), version)
  {
    hide ParseSemver, ItemRanges, Vulnerable;
    var e, v := r.events[0], ParseSemver(version);
    VulnerableByIndex(r.events, v);
    assert AtMost(VersionOf(e), v) ==> SwitchedOnAt(r.events, v, 0);
    assert e in r.events && r.events == [e] && Init([e]) == [];
    SingleRange(r);
    RangeIsAnInterval(version, e.introduced.value, None);
    assert ItemRanges([r])[0] in ItemRanges([r]);
  }

  /** Nothing unaffected is reported exactly when every fixed event was introduced at once before. */
  lemma {:induction false} OneRangeNeverAdds(r: EventRange)
    requires WellFormed(r.events) && StrictlySorted(r.events)
    ensures NeverAdds([r]) <==> EveryFixedWasIntroduced(r.events)
  {
    hide ParseSemver, Vulnerable, LastIntroduced, ClosedRanges, ItemRanges, VersionInRange, Contains;
    var events := r.events;
    SingleRange(r);
    if EveryFixedWasIntroduced(events) {
      forall version | Contains(ItemRanges([r]), version) ensures VulnerableInSome([r], ParseSemver(version)) {
        if HasFixed(events) {
          NothingAdded(r.kind, events, version);
        } else if events == [] {
          NoRangesContainNothing(version);
          assert false;
        } else {
          OpenRangeAddsNothing(r, version);
        }
      }
    } else {
      var j :| 0 <= j < |events| && IsFixed(events[j])
            && !(if j == 0 then VersionOf(events[0]) == ZERO else IsIntroduced(events[j - 1]));
      AddedVersion(r, j);
    }
  }

  lemma {:induction false} OpenRangeAddsNothing(r: EventRange, version: string)
    requires WellFormed(r.events) && r.events != [] && !HasFixed(r.events)
    requires Contains(ItemRanges([r]), version)
    ensures Vulnerable(r.events, ParseSemver(version))
  {
    hide ParseSemver, ItemRanges, Vulnerable;
    SingleRange(r);
    RangeIsAnInterval(version, Last(r.events).introduced.value, None);
    VulnerableByIndex(r.events, ParseSemver(version));
    assert SwitchedOnAt(r.events, ParseSemver(version), |r.events| - 1);
  }

  /** The translation of one event range is exact for every version under one condition on its events, and under no other. */
  lemma OneRangeIsExact(r: EventRange)
    requires WellFormed(r.events) && StrictlySorted(r.events)
    ensures (forall version :: Contains(ItemRanges([r]), version) <==> VulnerableInSome([r], ParseSemver(version)))
       <==> (|r.events| == 1 || EveryIntroducedIsFixed(r.events)) && EveryFixedWasIntroduced(r.events)
  {
    hide ParseSemver, Vulnerable, ItemRanges, Contains, EveryIntroducedIsFixed, EveryFixedWasIntroduced;
    OneRangeNeverMisses(r);
    OneRangeNeverAdds(r);
  }
}
