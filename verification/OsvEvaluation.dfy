/** The evaluation algorithm of the OSV schema (its section "Evaluation"), on events listed in any order. */
module OsvEvaluation {
  import opened Sequences
  import opened Semver
  import opened OsvRanges

  predicate IsIntroduced(e: Event) {
    e.introduced.Some?
  }

  predicate IsFixed(e: Event) {
    e.fixed.Some?
  }

  /** As the OSV schema wants it: one key per event, with some text. */
  predicate WellFormed(events: seq<Event>) {
    forall e :: e in events ==>
      if IsIntroduced(e) then e.fixed.None? && e.introduced.value != "" else IsBound(e.fixed)
  }

  function VersionOf(e: Event): Version {
    if IsIntroduced(e) then ParseSemver(e.introduced.value)
    else if IsFixed(e) then ParseSemver(e.fixed.value) else ZERO
  }

  ghost predicate Sorted(events: seq<Event>) {
    forall i, j :: 0 <= i < j < |events| ==> AtMost(VersionOf(events[i]), VersionOf(events[j]))
  }

  function InsertEvent(s: seq<Event>, e: Event): seq<Event> {
    if s == [] || AtMost(VersionOf(Last(s)), VersionOf(e)) then s + [e]
    else InsertEvent(Init(s), e) + [Last(s)]
  }

  /** sorted(events) by version; events of one version keep their order. */
  function SortEvents(events: seq<Event>): seq<Event> {
    if events == [] then [] else InsertEvent(SortEvents(Init(events)), Last(events))
  }

  predicate AtOrAfter(v: Version, text: Option<string>) {
    text.Some? && AtMost(ParseSemver(text.value), v)
  }

  /** The loop of the algorithm: an introduced at or before v switches "vulnerable" on, a fixed switches it off. */
  predicate Evaluate(events: seq<Event>, v: Version) {
    if events == [] then false
    else if AtOrAfter(v, Last(events).introduced) then true
    else if AtOrAfter(v, Last(events).fixed) then false
    else Evaluate(Init(events), v)
  }

  predicate Vulnerable(events: seq<Event>, v: Version) {
    Evaluate(SortEvents(events), v)
  }

  ghost predicate VulnerableInSome(ranges: seq<EventRange>, v: Version) {
    exists r :: r in ranges && Vulnerable(r.events, v)
  }

  // ---------------------------------------------------------------------
  // Sorting
  // ---------------------------------------------------------------------

  lemma {:induction false} InsertEventMembers(s: seq<Event>, e: Event)
    ensures multiset(InsertEvent(s, e)) == multiset(s) + multiset{e}
  {
    hide VersionOf;
    if s != [] && !AtMost(VersionOf(Last(s)), VersionOf(e)) {
      InsertEventMembers(Init(s), e);
      assert multiset(s) == multiset(Init(s)) + multiset{Last(s)};
    }
  }

  lemma {:induction false} InsertEventSorted(s: seq<Event>, e: Event)
    requires Sorted(s)
    ensures Sorted(InsertEvent(s, e))
  {
    hide VersionOf;
    if s != [] && !AtMost(VersionOf(Last(s)), VersionOf(e)) {
      var t := InsertEvent(Init(s), e);
      InsertEventSorted(Init(s), e);
      InsertEventMembers(Init(s), e);
      forall i | 0 <= i < |t| ensures AtMost(VersionOf(t[i]), VersionOf(Last(s))) {
        assert t[i] in multiset(t);
        assert t[i] == e || t[i] in Init(s);
      }
    }
  }

  lemma {:induction false} SortEventsSorts(events: seq<Event>)
    ensures Sorted(SortEvents(events)) && multiset(SortEvents(events)) == multiset(events)
  {
    hide InsertEvent;
    if events != [] {
      SortEventsSorts(Init(events));
      InsertEventSorted(SortEvents(Init(events)), Last(events));
      InsertEventMembers(SortEvents(Init(events)), Last(events));
      assert multiset(events) == multiset(Init(events)) + multiset{Last(events)};
    }
  }

  lemma {:induction false} SortedStaysSorted(events: seq<Event>)
    requires Sorted(events)
    ensures SortEvents(events) == events
  {
    hide VersionOf;
    if events != [] {
      SortedStaysSorted(Init(events));
    }
  }

  // ---------------------------------------------------------------------
  // The verdict by index, without sorting
  // ---------------------------------------------------------------------

  /** Of the events at or before v, the last one of the greatest version. */
  function Latest(events: seq<Event>, v: Version): Option<Event> {
    if events == [] then None
    else
      var l, e := Latest(Init(events), v), Last(events);
      if AtMost(VersionOf(e), v) && (l.None? || AtMost(VersionOf(l.value), VersionOf(e))) then Some(e) else l
  }

  lemma {:induction false} LatestIsMember(events: seq<Event>, v: Version)
    ensures Latest(events, v).Some? ==> Latest(events, v).value in events
  {
    hide VersionOf;
    if events != [] {
      LatestIsMember(Init(events), v);
    }
  }

  lemma {:induction false} LatestOfInsert(s: seq<Event>, e: Event, v: Version)
    requires Sorted(s)
    ensures Latest(InsertEvent(s, e), v) == Latest(s + [e], v)
  {
    hide VersionOf;
    assert Init(s + [e]) == s;
    if s != [] && !AtMost(VersionOf(Last(s)), VersionOf(e)) {
      var front := Init(s);
      LatestOfInsert(front, e, v);
      assert Init(front + [e]) == front;
      LatestIsMember(front, v);
      assert forall x :: x in front ==> AtMost(VersionOf(x), VersionOf(Last(s)));
    }
  }

  lemma {:induction false} LatestOfSorted(events: seq<Event>, v: Version)
    ensures Latest(SortEvents(events), v) == Latest(events, v)
  {
    hide VersionOf, InsertEvent;
    if events != [] {
      var s, e := SortEvents(Init(events)), Last(events);
      LatestOfSorted(Init(events), v);
      SortEventsSorts(Init(events));
      LatestOfInsert(s, e, v);
      assert Init(s + [e]) == s;
    }
  }

  lemma {:induction false} EvaluateSeesLatest(events: seq<Event>, v: Version)
    requires WellFormed(events) && Sorted(events)
    ensures Evaluate(events, v) <==> Latest(events, v).Some? && IsIntroduced(Latest(events, v).value)
  {
    hide ParseSemver;
    if events != [] {
      EvaluateSeesLatest(Init(events), v);
      LatestIsMember(Init(events), v);
      assert Last(events) in events;
      assert forall x :: x in Init(events) ==> AtMost(VersionOf(x), VersionOf(Last(events)));
    }
  }

  /** Event j comes before event i once sorted. */
  predicate Earlier(events: seq<Event>, j: nat, i: nat)
    requires i < |events| && j < |events|
  {
    Less(VersionOf(events[j]), VersionOf(events[i])) || (VersionOf(events[j]) == VersionOf(events[i]) && j < i)
  }

  ghost predicate IsLatest(events: seq<Event>, v: Version, i: nat) {
    && i < |events| && AtMost(VersionOf(events[i]), v)
    && forall j :: 0 <= j < |events| && AtMost(VersionOf(events[j]), v) ==> j == i || Earlier(events, j, i)
  }

  lemma {:induction false} LatestByIndex(events: seq<Event>, v: Version) returns (i: nat)
    ensures Latest(events, v).Some? ==> IsLatest(events, v, i) && Latest(events, v).value == events[i]
    ensures Latest(events, v).None? ==> forall j :: 0 <= j < |events| ==> !AtMost(VersionOf(events[j]), v)
  {
    hide VersionOf;
    i := 0;
    if events != [] {
      var k := LatestByIndex(Init(events), v);
      i := if AtMost(VersionOf(Last(events)), v)
              && (Latest(Init(events), v).None?
                  || AtMost(VersionOf(Latest(Init(events), v).value), VersionOf(Last(events))))
           then |events| - 1 else k;
    }
  }

  /** An introduced event at or before v that no fixed event at or before v comes after. */
  ghost predicate SwitchedOnAt(events: seq<Event>, v: Version, i: int) {
    && 0 <= i < |events| && IsIntroduced(events[i]) && AtMost(VersionOf(events[i]), v)
    && forall j :: 0 <= j < |events| && IsFixed(events[j]) && AtMost(VersionOf(events[j]), v) ==> Earlier(events, j, i)
  }

  lemma {:induction false} SeenByLatest(events: seq<Event>, v: Version)
    requires WellFormed(events)
    ensures Vulnerable(events, v) <==> Latest(events, v).Some? && IsIntroduced(Latest(events, v).value)
  {
    hide VersionOf, Latest, Evaluate, SortEvents;
    SortEventsSorts(events);
    SameMembers(SortEvents(events), events);
    EvaluateSeesLatest(SortEvents(events), v);
    LatestOfSorted(events, v);
  }

  /** The verdict of the algorithm, said of the unsorted events. */
  lemma VulnerableByIndex(events: seq<Event>, v: Version)
    requires WellFormed(events)
    ensures Vulnerable(events, v) <==> exists i :: SwitchedOnAt(events, v, i)
  {
    hide VersionOf, Latest, Vulnerable;
    SeenByLatest(events, v);
    var l := LatestByIndex(events, v);
    if Vulnerable(events, v) {
      assert events[l] in events;
      assert SwitchedOnAt(events, v, l);
    }
    if i :| SwitchedOnAt(events, v, i) {
      assert events[l] in events;
      assert IsIntroduced(events[l]);
    }
  }
}
