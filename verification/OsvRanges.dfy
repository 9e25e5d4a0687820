/**
 * Translation of OSV events into version ranges (control-plane/app/cve_service.py,
 * _parse_osv_affected).
 */
module OsvRanges {
  import opened Sequences
  import opened Semver

  /** An event object; None is an absent key. Keys other than these two are not read. */
  datatype Event = Event(introduced: Option<string>, fixed: Option<string>)
  datatype EventRange = EventRange(kind: Option<string>, events: seq<Event>)
  datatype Affected = Affected(name: string, ecosystem: string, ranges: seq<EventRange>, versions: seq<string>)

  datatype Range = Range(kind: string, introduced: string, fixed: Option<string>)
  datatype Component = Component(name: string, ecosystem: string, ranges: seq<Range>, versions: seq<string>)

  // ---------------------------------------------------------------------
  // What the translation yields, event by event
  // ---------------------------------------------------------------------

  function KindOf(kind: Option<string>): string {
    if kind.Some? then kind.value else "SEMVER"
  }

  /** The value of the variable "introduced" after these events. */
  function LastIntroduced(events: seq<Event>): Option<string> {
    if events == [] then None
    else if Last(events).introduced.Some? then Last(events).introduced
    else LastIntroduced(Init(events))
  }

  /** introduced or "0" */
  function OrZero(introduced: Option<string>): string {
    if introduced.Some? && introduced.value != "" then introduced.value else "0"
  }

  /** One range per fixed event. */
  function ClosedRanges(kind: Option<string>, events: seq<Event>): seq<Range> {
    if events == [] then []
    else
      var front := ClosedRanges(kind, Init(events));
      if Last(events).fixed.Some?
      then front + [Range(KindOf(kind), OrZero(LastIntroduced(events)), Last(events).fixed)] else front
  }

  function ClosedRangesOf(ranges: seq<EventRange>): seq<Range> {
    if ranges == [] then []
    else ClosedRangesOf(Init(ranges)) + ClosedRanges(Last(ranges).kind, Last(ranges).events)
  }

  function FixedIn(events: seq<Event>): seq<string> {
    if events == [] then []
    else
      var front := FixedIn(Init(events));
      if Last(events).fixed.Some? then front + [Last(events).fixed.value] else front
  }

  function FixedInRanges(ranges: seq<EventRange>): seq<string> {
    if ranges == [] then [] else FixedInRanges(Init(ranges)) + FixedIn(Last(ranges).events)
  }

  function FixedInAll(items: seq<Affected>): seq<string> {
    if items == [] then [] else FixedInAll(Init(items)) + FixedInRanges(Last(items).ranges)
  }

  /** The loop variable "introduced", which outlives its loops: None while it is still unassigned. */
  function Carried(items: seq<Affected>): Option<Option<string>> {
    if items == [] then None
    else if Last(items).ranges != [] then Some(LastIntroduced(Last(Last(items).ranges).events))
    else Carried(Init(items))
  }

  /** The ranges of the last item: its closed ranges, or else one open range from what the variable holds. */
  function LastItemRanges(items: seq<Affected>): seq<Range>
    requires items != []
  {
    var closed := ClosedRangesOf(Last(items).ranges);
    match Carried(items)
    case Some(Some(text)) => if closed == [] && text != "" then [Range("SEMVER", text, None)] else closed
    case _ => closed
  }

  function ComponentsOf(items: seq<Affected>): seq<Component> {
    if items == [] then []
    else
      ComponentsOf(Init(items))
      + [Component(Last(items).name, Last(items).ecosystem, LastItemRanges(items), Last(items).versions)]
  }

  /** The loop variable is read before it was ever assigned: an UnboundLocalError. */
  predicate Raises(items: seq<Affected>) {
    items != [] && items[0].ranges == []
  }

  // ---------------------------------------------------------------------
  // The loops
  // ---------------------------------------------------------------------

  datatype Parsed = Parsed(components: seq<Component>, fixedVersions: seq<string>)

  /** _parse_osv_affected; None is the exception. */
  method ParseOsvAffected(items: seq<Affected>) returns (r: Option<Parsed>)
    ensures r == if Raises(items) then None else Some(Parsed(ComponentsOf(items), FixedInAll(items)))
    ensures r == None <==> items != [] && items[0].ranges == []
  {
    var components, fixedVersions := [], [];
    var introduced: Option<Option<string>> := None;
    for i := 0 to |items|
      invariant introduced == Carried(items[..i])
      invariant i > 0 ==> introduced.Some?
      invariant components == ComponentsOf(items[..i])
      invariant fixedVersions == FixedInAll(items[..i])
      invariant i > 0 ==> !Raises(items)
    {
      var item := items[i];
      InitOfPrefix(items, i);
      var ranges, fixed, leftover := ParseRanges(item.ranges);
      fixedVersions := fixedVersions + fixed;
      if leftover.Some? {
        introduced := leftover;
      }
      if ranges == [] {
        if introduced.None? {
          return None;
        }
        if introduced.value.Some? && introduced.value.value != "" {
          ranges := [Range("SEMVER", introduced.value.value, None)];
        }
      }
      components := components + [Component(item.name, item.ecosystem, ranges, item.versions)];
    }
    assert items[..|items|] == items;
    return Some(Parsed(components, fixedVersions));
  }

  /** The loop over the ranges of one item; leftover is None when it does not run. */
  method ParseRanges(ranges: seq<EventRange>)
    returns (closed: seq<Range>, fixedVersions: seq<string>, leftover: Option<Option<string>>)
    ensures closed == ClosedRangesOf(ranges) && fixedVersions == FixedInRanges(ranges)
    ensures leftover == if ranges == [] then None else Some(LastIntroduced(Last(ranges).events))
  {
    closed, fixedVersions, leftover := [], [], None;
    for i := 0 to |ranges|
      invariant closed == ClosedRangesOf(ranges[..i]) && fixedVersions == FixedInRanges(ranges[..i])
      invariant leftover == if i == 0 then None else Some(LastIntroduced(ranges[i - 1].events))
    {
      InitOfPrefix(ranges, i);
      var found, fixed, introduced := ParseEvents(ranges[i].kind, ranges[i].events);
      closed, fixedVersions, leftover := closed + found, fixedVersions + fixed, Some(introduced);
    }
    assert ranges[..|ranges|] == ranges;
  }

  method ParseEvents(kind: Option<string>, events: seq<Event>)
    returns (closed: seq<Range>, fixedVersions: seq<string>, introduced: Option<string>)
    ensures closed == ClosedRanges(kind, events) && fixedVersions == FixedIn(events)
    ensures introduced == LastIntroduced(events)
  {
    closed, fixedVersions, introduced := [], [], None;
    for i := 0 to |events|
      invariant closed == ClosedRanges(kind, events[..i]) && fixedVersions == FixedIn(events[..i])
      invariant introduced == LastIntroduced(events[..i])
    {
      var e := events[i];
      InitOfPrefix(events, i);
      if e.introduced.Some? {
        introduced := e.introduced;
      }
      if e.fixed.Some? {
        fixedVersions := fixedVersions + [e.fixed.value];
        closed := closed + [Range(KindOf(kind), OrZero(introduced), e.fixed)];
      }
    }
    assert events[..|events|] == events;
  }

  /**
   * An item without any range takes over what the items before it left in the
   * variable: it lists no range exactly when that is null or empty, and
   * otherwise counts every version from there on as vulnerable.
   */
  lemma {:induction false} RangelessItemsInherit(items: seq<Affected>, version: string)
    requires !Raises(items) && items != [] && Last(items).ranges == []
    ensures var left := Carried(Init(items));
            && left.Some?
            && (LastItemRanges(items) == [] <==> !IsBound(left.value))
            && (Contains(LastItemRanges(items), version) <==>
                IsBound(left.value) && AtMost(ParseSemver(left.value.value), ParseSemver(version)))
  {
    hide ParseSemver;
    assert |items| > 1;
    CarriedOnceAssigned(Init(items));
    var left := Carried(Init(items));
    if IsBound(left.value) {
      RangeIsAnInterval(version, left.value.value, None);
      assert LastItemRanges(items) == [Range("SEMVER", left.value.value, None)];
      assert LastItemRanges(items)[0] in LastItemRanges(items);
    }
  }

  lemma {:induction false} CarriedOnceAssigned(items: seq<Affected>)
    requires items != [] && items[0].ranges != []
    ensures Carried(items).Some?
  {
    if Last(items).ranges == [] {
      CarriedOnceAssigned(Init(items));
    }
  }

  /** Some range of the list holds the version, as the scanner checks it. */
  ghost predicate Contains(ranges: seq<Range>, version: string) {
    exists r :: r in ranges && VersionInRange(version, r.introduced, r.fixed)
  }
}
