/** Concrete instances of the report builder, worked out from the general
    lemmas: one timestamp, one ordering of three segments, one filter with
    an empty model, and one whole report for a single resource. */
module Scenarios {
  import opened Outcomes
  import opened Text
  import opened Timestamps
  import opened SegmentSort
  import opened AvailabilityBuilder

  /** Comparing two strings with a common beginning compares what follows it. */
  lemma {:induction false} LexLeAfterPrefix(p: string, a: string, b: string)
    requires LexLe(a, b)
    ensures LexLe(p + a, p + b)
  {
    if p == [] {
      assert p + a == a && p + b == b;
    } else {
      LexLeAfterPrefix(p[1..], a, b);
      assert (p + a)[0] == (p + b)[0];
      assert (p + a)[1..] == p[1..] + a;
      assert (p + b)[1..] == p[1..] + b;
    }
  }

  /** A time on 14 March 2024 as the service writes it converts to the
      report's text for it. */
  lemma PiDayToIso(s: string)
    requires s == "03/14/2024 09:30"
    ensures ToIso8601(s) == Ok("2024-03-14 09:30")
  {
    ToIso8601At(s, "03", "14", "2024", "09:30", "2024-03-14 09:30");
  }

  /** And the report's text converts back to the service's. */
  lemma PiDayFromIso(iso: string)
    requires iso == "2024-03-14 09:30"
    ensures FromIso8601(iso) == Ok("03/14/2024 09:30")
  {
    FromIso8601At(iso, "03", "14", "2024", "09:30", "03/14/2024 09:30");
  }

  /** A concrete ISO timestamp whose fields hold neither separator converts
      back to the service text with the same fields. */
  lemma FromIso8601At(iso: string, month: string, day: string, year: string, clock: string, s: string)
    requires Field(month, '/') && Field(day, '/') && Field(year, '/')
    requires '-' !in month && '-' !in day && '-' !in year
    requires s == ServiceForm(month, day, year, clock) && iso == IsoForm(month, day, year, clock)
    ensures FromIso8601(iso) == Ok(s)
  {
    ToIso8601OfServiceForm(month, day, year, clock);
    ServiceRoundTrip(month, day, year, clock);
  }

  /** Three segments ending on 1, 3 and 2 January 2024 come out ordered
      3, 2, 1 January. */
  lemma ThreeEndsSorted(a: Segment, b: Segment, c: Segment)
    requires a.end == "2024-01-01 10:00" && b.end == "2024-01-03 08:00" && c.end == "2024-01-02 23:59"
    ensures SortByEndDesc([a, b, c]) == [b, c, a]
  {
    var p := "2024-01-0";
    assert a.end == p + "1 10:00" && b.end == p + "3 08:00" && c.end == p + "2 23:59";
    LexLeAfterPrefix(p, "1 10:00", "2 23:59");
    LexLeAfterPrefix(p, "2 23:59", "3 08:00");
    LexLeAfterPrefix(p, "1 10:00", "3 08:00");
    SortThree(a, b, c);
  }

  /** Three segments whose ends are ordered second, third, first come out
      in that order. */
  lemma SortThree(a: Segment, b: Segment, c: Segment)
    requires LexLe(a.end, c.end) && LexLe(c.end, b.end) && LexLe(a.end, b.end)
    requires a.end != b.end && a.end != c.end
    ensures SortByEndDesc([a, b, c]) == [b, c, a]
  {
    var r := [b, c, a];
    assert SortedByEndDesc(r) by {
      assert LexLe(r[1].end, r[0].end) && LexLe(r[2].end, r[1].end) && LexLe(r[2].end, r[0].end);
    }
    forall key ensures WithEnd(r, key) == WithEnd([a, b, c], key) {
      PermutedWithEnd(a, b, c, key);
    }
    SortByEndDescIsStableSort([a, b, c], r);
  }

  /** Moving a segment to the front keeps the order among equal `end`s
      when its `end` differs from those it passes. */
  lemma PermutedWithEnd(a: Segment, b: Segment, c: Segment, key: string)
    requires a.end != b.end && a.end != c.end
    ensures WithEnd([b, c, a], key) == WithEnd([a, b, c], key)
  {
    assert [b, c, a] == [b, c] + [a] && [a, b, c] == [a] + [b, c];
    WithEndAppend([b, c], [a], key);
    WithEndAppend([a], [b, c], key);
    WithEndCons(a, [], key);
    assert [a] + [] == [a];
  }

  /** The filter `Switch:` asks for family `Switch` with an empty model. */
  lemma EmptyModelFilter(find: (string, string) -> seq<FoundResource>)
    ensures ResolvedNames(["Switch:"], find) == Partial(NamesOf(find("Switch", "")), None)
  {
    assert "Switch:" == "Switch" + ":" + "";
    ResolvedNamesOfFilter("Switch", "", find);
  }

  /** A concrete service timestamp converts to the ISO text with the same
      fields. */
  lemma ToIso8601At(s: string, month: string, day: string, year: string, clock: string, iso: string)
    requires Field(month, '/') && Field(day, '/') && Field(year, '/')
    requires s == ServiceForm(month, day, year, clock) && iso == IsoForm(month, day, year, clock)
    ensures ToIso8601(s) == Ok(iso)
  {
    ToIso8601OfServiceForm(month, day, year, clock);
  }

  /** A reservation whose two times convert yields the segment of the
      converted times. */
  lemma SegmentOfConverted(r: ReservationInfo, start: string, end: string)
    requires ToIso8601(r.startTime) == Ok(start) && ToIso8601(r.endTime) == Ok(end)
    ensures SegmentOf(r) == Ok(Segment(end, r.reservationId, r.reservationName, r.owner, start))
  {
  }

  /** 10:00 on 1 January 2024, in both layouts. */
  lemma TenOClockConverts(s: string)
    requires s == "01/01/2024 10:00"
    ensures ToIso8601(s) == Ok("2024-01-01 10:00")
  {
    ToIso8601At(s, "01", "01", "2024", "10:00", "2024-01-01 10:00");
  }

  /** 12:00 on 1 January 2024, in both layouts. */
  lemma NoonConverts(s: string)
    requires s == "01/01/2024 12:00"
    ensures ToIso8601(s) == Ok("2024-01-01 12:00")
  {
    ToIso8601At(s, "01", "01", "2024", "12:00", "2024-01-01 12:00");
  }

  /** The reservation of the one-resource scenario, 10:00 to 12:00 on
      1 January 2024, owned by alice. */
  predicate RouterReservation(r: ReservationInfo)
  {
    r.startTime == "01/01/2024 10:00" && r.endTime == "01/01/2024 12:00" && r.owner == "alice"
  }

  /** Its segment: end and start in ISO order, the rest copied. */
  function RouterSegment(r: ReservationInfo): Segment
  {
    Segment("2024-01-01 12:00", r.reservationId, r.reservationName, "alice", "2024-01-01 10:00")
  }

  lemma RouterSegmentOf(r: ReservationInfo)
    requires RouterReservation(r)
    ensures SegmentOf(r) == Ok(RouterSegment(r))
  {
    TenOClockConverts(r.startTime);
    NoonConverts(r.endTime);
    SegmentOfConverted(r, "2024-01-01 10:00", "2024-01-01 12:00");
  }

  /** A resource with a single reservation that converts has the entry
      holding just that reservation's segment. */
  lemma EntryOfOne(resource: ResourceInfo, segment: Segment)
    requires |resource.reservations| == 1 && SegmentOf(resource.reservations[0]) == Ok(segment)
    ensures EntryOf(resource) == Ok(ReportEntry(resource.name, [segment]))
  {
    assert resource.reservations == [resource.reservations[0]];
    MapUntilErrorOne(resource.reservations[0], SegmentOf, segment);
    assert [segment][1..] == [];
    assert SortByEndDesc([segment]) == Insert(segment, []) == [segment];
  }

  /** A response of one requested resource whose entry builds is reported
      as that one entry. */
  lemma EntriesForOne(names: seq<string>, resource: ResourceInfo, entry: ReportEntry)
    requires resource.fullName in names && EntryOf(resource) == Ok(entry)
    ensures EntriesFor(names, [resource]) == Partial([entry], None)
  {
    assert [resource][..0] == [];
    assert Kept(names, [resource]) == [resource];
    MapUntilErrorOne(resource, EntryOf, entry);
  }

  /** Asking for `Router-1` when the service returns just that resource, with
      that one reservation, gives a one-entry report holding that one segment. */
  lemma OneRouterReport(r: ReservationInfo)
    requires RouterReservation(r)
    ensures EntriesFor(["Router-1"], [ResourceInfo("Router-1", "Router-1", [r])]) ==
      Partial([ReportEntry("Router-1", [RouterSegment(r)])], None)
  {
    var resource := ResourceInfo("Router-1", "Router-1", [r]);
    RouterSegmentOf(r);
    EntryOfOne(resource, RouterSegment(r));
    EntriesForOne(["Router-1"], resource, ReportEntry("Router-1", [RouterSegment(r)]));
  }
}
