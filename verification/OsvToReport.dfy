/** From an OSV document to the CVE report: what the parsed components are, and which versions they get reported for. */
module OsvToReport {
  import opened Sequences
  import opened Scoring
  import opened Semver
  import opened Text
  import opened OsvRanges
  import opened OsvEvaluation
  import opened OsvExactness
  import Cve = CveMatching
  import CveByFields

  // ---------------------------------------------------------------------
  // The parsed components, item by item
  // ---------------------------------------------------------------------

  /** Component i has the name, ecosystem and versions of item i, and its ranges if the item has any. */
  lemma {:induction false} ComponentsByFields(items: seq<Affected>, i: nat)
    requires i < |items|
    ensures |ComponentsOf(items)| == |items|
    ensures ComponentsOf(items)[i].name == items[i].name && ComponentsOf(items)[i].ecosystem == items[i].ecosystem
    ensures ComponentsOf(items)[i].versions == items[i].versions
    ensures items[i].ranges != [] ==> ComponentsOf(items)[i].ranges == ItemRanges(items[i].ranges)
  {
    hide LastItemRanges, ItemRanges;
    ComponentsLength(items);
    ComponentsLength(Init(items));
    if i == |items| - 1 {
      if items[i].ranges != [] {
        ItemsWithRangesAreIndependent(items);
      }
    } else {
      ComponentsByFields(Init(items), i);
      assert ComponentsOf(items)[i] == ComponentsOf(Init(items))[i];
    }
  }

  lemma {:induction false} ComponentsLength(items: seq<Affected>)
    ensures |ComponentsOf(items)| == |items|
  {
    hide LastItemRanges;
    if items != [] {
      ComponentsLength(Init(items));
    }
  }

  /** A closed range has the type of an event range of the item, "SEMVER" if that has none, and one of its fixed texts. */
  ghost predicate ComesFrom(r: Range, ranges: seq<EventRange>) {
    exists er, e :: er in ranges && e in er.events && e.fixed.Some? && r.fixed == e.fixed
      && r.kind == if er.kind.Some? then er.kind.value else "SEMVER"
  }

  lemma {:induction false} ClosedComesFrom(ranges: seq<EventRange>, r: Range)
    requires r in ClosedRangesOf(ranges)
    ensures ComesFrom(r, ranges)
  {
    hide ClosedRanges;
    if r in ClosedRangesOf(Init(ranges)) {
      ClosedComesFrom(Init(ranges), r);
      assert forall er :: er in Init(ranges) ==> er in ranges;
    } else {
      var er := Last(ranges);
      var e := FixedEventOf(er.kind, er.events, r);
      assert er in ranges;
    }
  }

  lemma {:induction false} FixedEventOf(kind: Option<string>, events: seq<Event>, r: Range) returns (e: Event)
    requires r in ClosedRanges(kind, events)
    ensures e in events && e.fixed.Some? && r.fixed == e.fixed
    ensures r.kind == if kind.Some? then kind.value else "SEMVER"
  {
    hide LastIntroduced;
    if r in ClosedRanges(kind, Init(events)) {
      e := FixedEventOf(kind, Init(events), r);
    } else {
      e := Last(events);
    }
  }

  /** Every range is closed and comes from the item, or is one open "SEMVER" range, the only one. */
  lemma RangesByFields(ranges: seq<EventRange>, r: Range)
    requires ranges != [] && r in ItemRanges(ranges)
    ensures ComesFrom(r, ranges) || (r.kind == "SEMVER" && r.fixed == None && ItemRanges(ranges) == [r])
  {
    hide ClosedRangesOf, LastIntroduced, ComesFrom;
    ItemRangesWhenNothingIsClosed(ranges);
    if r in ClosedRangesOf(ranges) {
      ClosedComesFrom(ranges, r);
    }
  }

  function FixesOf(ranges: seq<Range>): seq<string> {
    if ranges == [] then []
    else if Last(ranges).fixed.Some? then FixesOf(Init(ranges)) + [Last(ranges).fixed.value] else FixesOf(Init(ranges))
  }

  function AllFixesOf(components: seq<Component>): seq<string> {
    if components == [] then [] else AllFixesOf(Init(components)) + FixesOf(Last(components).ranges)
  }

  lemma {:induction false} FixesConcat(a: seq<Range>, b: seq<Range>)
    ensures FixesOf(a + b) == FixesOf(a) + FixesOf(b)
  {
    if b == [] {
      assert a + b == a;
    } else {
      InitOfConcat(a, b);
      FixesConcat(a, Init(b));
    }
  }

  lemma {:induction false} FixesOfClosed(kind: Option<string>, events: seq<Event>)
    ensures FixesOf(ClosedRanges(kind, events)) == FixedIn(events)
  {
    hide LastIntroduced;
    if events != [] {
      var front := ClosedRanges(kind, Init(events));
      FixesOfClosed(kind, Init(events));
      if Last(events).fixed.Some? {
        assert Init(ClosedRanges(kind, events)) == front;
      }
    }
  }

  lemma {:induction false} FixesOfItem(ranges: seq<EventRange>)
    ensures FixesOf(ClosedRangesOf(ranges)) == FixedInRanges(ranges)
  {
    hide ClosedRanges, FixedIn;
    if ranges != [] {
      FixesOfItem(Init(ranges));
      FixesOfClosed(Last(ranges).kind, Last(ranges).events);
      FixesConcat(ClosedRangesOf(Init(ranges)), ClosedRanges(Last(ranges).kind, Last(ranges).events));
    }
  }

  lemma FixesOfLastItem(items: seq<Affected>)
    requires items != []
    ensures FixesOf(LastItemRanges(items)) == FixedInRanges(Last(items).ranges)
  {
    hide ClosedRangesOf, FixedInRanges, Carried;
    FixesOfItem(Last(items).ranges);
    var ranges := LastItemRanges(items);
    if ranges != ClosedRangesOf(Last(items).ranges) {
      assert |ranges| == 1 && ranges[0].fixed == None;
      assert Init(ranges) == [];
    }
  }

  /** The second result lists the fixed texts of the components' ranges, in order. */
  lemma {:induction false} FixedVersionsByFields(items: seq<Affected>)
    ensures FixedInAll(items) == AllFixesOf(ComponentsOf(items))
  {
    hide LastItemRanges, FixedInRanges, FixesOf;
    if items != [] {
      FixedVersionsByFields(Init(items));
      FixesOfLastItem(items);
      assert Init(ComponentsOf(items)) == ComponentsOf(Init(items));
    }
  }

  // ---------------------------------------------------------------------
  // Into the report
  // ---------------------------------------------------------------------

  /** A stored component carries no fixed_in of its own. */
  function Stored(components: seq<Component>): seq<Cve.Component> {
    seq(|components|, i requires 0 <= i < |components| =>
      Cve.Component(components[i].name, components[i].versions, components[i].ranges, None))
  }

  /** The inventory has a version under the package's name that the OSV algorithm calls vulnerable. */
  ghost predicate HasVulnerable(item: Affected, inv: Cve.Inventory) {
    exists version ::
      CveByFields.InInventory(inv, Lower(item.name), version) && VulnerableInSome(item.ranges, ParseSemver(version))
  }

  /** Then the entry is reported, when the item's translation misses nothing, as the results of OsvItems decide. */
  lemma VulnerableIsReported(
    items: seq<Affected>, item: Affected, entries: seq<Cve.Entry>, e: Cve.Entry, inv: Cve.Inventory, ctx: Context,
    findings: seq<Cve.CveFinding>)
    requires IsStableSort(Cve.Scored(entries, inv, ctx), Cve.Summary(findings), Cve.ScoreOf)
    requires e in entries && e.components == Stored(ComponentsOf(items))
    requires item in items && item.name != "" && item.ranges != []
    ensures NeverMisses(item.ranges) && HasVulnerable(item, inv) ==> Cve.Reports(findings, e)
  {
    hide IsStableSort, Cve.Scored, Cve.Summary, Cve.Reports, CveByFields.InInventory, Lower, ParseSemver, VulnerableInSome,
      ComponentsOf, ItemRanges, CveByFields.IsPartOf;
    if NeverMisses(item.ranges) && HasVulnerable(item, inv) {
      var k :| 0 <= k < |items| && items[k] == item;
      var version :| CveByFields.InInventory(inv, Lower(item.name), version)
                  && VulnerableInSome(item.ranges, ParseSemver(version));
      ComponentsByFields(items, k);
      var c := e.components[k];
      ContainedIsHit(c, version);
      var name := Lower(c.name);
      assert name == "" + name + "" && c in e.components;
      CveByFields.LongerNamesAreReported(entries, inv, ctx, findings, e, c, "", name, "", version);
    }
  }

  lemma ContainedIsHit(c: Cve.Component, version: string)
    ensures Contains(c.ranges, version) <==>
            exists r :: r in c.ranges && Within(ParseSemver(version), ParseSemver(r.introduced), Bound(r.fixed))
    ensures Contains(c.ranges, version) ==> CveByFields.IsHit(c, version)
  {
    hide ParseSemver, VersionInRange, Within, CveByFields.IsListedVersion;
    forall r: Range ensures VersionInRange(version, r.introduced, r.fixed) <==>
                            Within(ParseSemver(version), ParseSemver(r.introduced), Bound(r.fixed)) {
      RangeIsAnInterval(version, r.introduced, r.fixed);
    }
  }

  /** Item i touches the inventory version: it lists it, or the OSV algorithm calls it vulnerable. */
  ghost predicate IsAffectedBy(item: Affected, c: Cve.Component, inv: Cve.Inventory, name: string, version: string) {
    && CveByFields.Touches(c, inv, name, version)
    && (CveByFields.IsListedVersion(c, version) || VulnerableInSome(item.ranges, ParseSemver(version)))
  }

  /** And nothing else is, when no item's translation adds anything. */
  lemma ReportedIsVulnerable(
    items: seq<Affected>, entries: seq<Cve.Entry>, e: Cve.Entry, inv: Cve.Inventory, ctx: Context,
    findings: seq<Cve.CveFinding>)
    requires IsStableSort(Cve.Scored(entries, inv, ctx), Cve.Summary(findings), Cve.ScoreOf)
    requires e.components == Stored(ComponentsOf(items)) && Cve.Reports(findings, e)
    requires forall i :: 0 <= i < |items| ==> items[i].ranges != [] && NeverAdds(items[i].ranges)
    ensures exists i, name, version :: 0 <= i < |items| && i < |e.components|
              && IsAffectedBy(items[i], e.components[i], inv, name, version)
  {
    hide IsStableSort, Cve.Scored, Cve.Summary, Cve.Reports, ParseSemver, VulnerableInSome, ComponentsOf, ItemRanges,
      CveByFields.Touches, CveByFields.IsListedVersion, Within;
    CveByFields.ReportByFields(entries, inv, ctx, findings, e);
    var c, name, version :| c in e.components && CveByFields.Touches(c, inv, name, version) && CveByFields.IsHit(c, version);
    ComponentsLength(items);
    var i :| 0 <= i < |e.components| && e.components[i] == c;
    ComponentsByFields(items, i);
    ContainedIsHit(c, version);
    assert IsAffectedBy(items[i], e.components[i], inv, name, version);
  }
}
