/** `ResourceAvailability`: builds the reservation report for the resources
    that a list of `family:model` filters selects, over a query window set by
    two offsets from the current time. The inventory service is a `Session`
    value of two query functions; the clock, the local time zone and the
    time formatting are parameters. */
module AvailabilityBuilder {
  import opened Outcomes
  import opened Text
  import opened Timestamps
  import opened SegmentSort

  /** One reservation as the service reports it. */
  datatype ReservationInfo = ReservationInfo(
    startTime: string, endTime: string, reservationId: string, reservationName: string, owner: string)

  /** One resource record of the availability query. */
  datatype ResourceInfo = ResourceInfo(name: string, fullName: string, reservations: seq<ReservationInfo>)

  /** One resource found by a family/model search. */
  datatype FoundResource = FoundResource(name: string, fullName: string)

  /** One element of the report: a resource and its reservations. */
  datatype ReportEntry = ReportEntry(category: string, segments: seq<Segment>)

  /** The configuration values the builder reads. */
  datatype Config = Config(familyModelList: seq<string>, startOffset: int, endOffset: int)

  /** The two queries the builder puts to the inventory service:
      `FindResources(family, model)` and
      `GetResourceAvailabilityInTimeRange(names, start, end, showAllDomains=True)`. */
  datatype Session = Session(
    findResources: (string, string) -> seq<FoundResource>,
    resourceAvailability: (seq<string>, string, string) -> seq<ResourceInfo>)

  // ---------------------------------------------------------------------
  // Report assembly

  /** Both timestamps of a reservation are in the service's layout. */
  predicate Convertible(r: ReservationInfo)
  {
    ToIso8601(r.startTime).Ok? && ToIso8601(r.endTime).Ok?
  }

  /** `seg` is the segment of `r`: identity, name and owner copied, the two
      times converted to ISO 8601 order. */
  predicate SegmentCopies(seg: Segment, r: ReservationInfo)
  {
    && seg.id == r.reservationId && seg.name == r.reservationName && seg.owner == r.owner
    && ToIso8601(r.startTime) == Ok(seg.start) && ToIso8601(r.endTime) == Ok(seg.end)
  }

  /** The segment of one reservation; the end time is converted before the
      start time, so a bad end time is the one reported. */
  function SegmentOf(r: ReservationInfo): Result<Segment>
  {
    match ToIso8601(r.endTime)
    case Err(e) => Err(e)
    case Ok(end) =>
      match ToIso8601(r.startTime)
      case Err(e) => Err(e)
      case Ok(start) => Ok(Segment(end, r.reservationId, r.reservationName, r.owner, start))
  }

  /** The segments built from a resource's reservations, in order, up to
      the first reservation that does not convert. */
  function SegmentsOf(rs: seq<ReservationInfo>): Partial<seq<Segment>>
  {
    MapUntilError(rs, SegmentOf)
  }

  /** The report entry of one resource: its `Name` and its segments, latest
      end first; the error of its first bad reservation otherwise. */
  function EntryOf(r: ResourceInfo): Result<ReportEntry>
  {
    var built := SegmentsOf(r.reservations);
    if built.failure.Some? then Err(built.failure.value)
    else Ok(ReportEntry(r.name, SortByEndDesc(built.value)))
  }

  /** The records whose `FullName` is one of `names`, in response order. */
  function Kept(names: seq<string>, rs: seq<ResourceInfo>): seq<ResourceInfo>
  {
    if rs == [] then []
    else Kept(names, rs[..|rs| - 1]) + (if rs[|rs| - 1].fullName in names then [rs[|rs| - 1]] else [])
  }

  /** What the loop over the response appends to the report: the entries of
      the kept records, up to the first one that fails, and its error. */
  function EntriesFor(names: seq<string>, rs: seq<ResourceInfo>): Partial<seq<ReportEntry>>
  {
    MapUntilError(Kept(names, rs), EntryOf)
  }

  /** A reservation yields a segment exactly when both of its times
      convert, and the segment then copies it. */
  lemma SegmentOfSpec(r: ReservationInfo)
    ensures SegmentOf(r).Ok? <==> Convertible(r)
    ensures SegmentOf(r).Ok? ==> SegmentCopies(SegmentOf(r).value, r)
  {
  }

  /** Building segments succeeds exactly when every reservation converts,
      and then yields one segment per reservation, in order, each copying
      its reservation; otherwise it stops at the first reservation that
      does not convert. */
  lemma SegmentsOfSpec(rs: seq<ReservationInfo>)
    ensures SegmentsOf(rs).failure.None? <==> forall j :: 0 <= j < |rs| ==> Convertible(rs[j])
    ensures SegmentsOf(rs).failure.None? ==>
      |SegmentsOf(rs).value| == |rs| &&
      forall j :: 0 <= j < |rs| ==> SegmentCopies(SegmentsOf(rs).value[j], rs[j])
    ensures SegmentsOf(rs).failure.Some? ==>
      var k := |SegmentsOf(rs).value|;
      k < |rs| && !Convertible(rs[k]) && forall j :: 0 <= j < k ==> Convertible(rs[j])
  {
    MapUntilErrorSpec(rs, SegmentOf);
    forall j | 0 <= j < |rs| {
      SegmentOfSpec(rs[j]);
    }
  }

  /** A resource's entry exists exactly when all its reservations convert;
      it is named by the record's `Name`, and its segments are the built
      segments ordered latest end first, ties in reservation order. */
  lemma EntryOfSpec(r: ResourceInfo)
    ensures EntryOf(r).Ok? <==> forall j :: 0 <= j < |r.reservations| ==> Convertible(r.reservations[j])
    ensures EntryOf(r).Ok? ==>
      var built := SegmentsOf(r.reservations).value;
      var segments := EntryOf(r).value.segments;
      && EntryOf(r).value.category == r.name
      && |built| == |r.reservations|
      && (forall j :: 0 <= j < |built| ==> SegmentCopies(built[j], r.reservations[j]))
      && SortedByEndDesc(segments)
      && multiset(segments) == multiset(built)
      && (forall key :: WithEnd(segments, key) == WithEnd(built, key))
  {
    SegmentsOfSpec(r.reservations);
    if EntryOf(r).Ok? {
      var built := SegmentsOf(r.reservations).value;
      SortByEndDescSorted(built);
      SortByEndDescPermutes(built);
      forall key ensures WithEnd(SortByEndDesc(built), key) == WithEnd(built, key) {
        SortByEndDescStable(built, key);
      }
    }
  }

  /** The records kept are those whose `FullName` is requested, no others. */
  lemma {:induction false} KeptMembers(names: seq<string>, rs: seq<ResourceInfo>, r: ResourceInfo)
    ensures r in Kept(names, rs) <==> r in rs && r.fullName in names
  {
    if rs != [] {
      KeptMembers(names, rs[..|rs| - 1], r);
      assert rs == rs[..|rs| - 1] + [rs[|rs| - 1]];
    }
  }

  /** Keeping respects response order: the records kept from a response are
      those kept from its first part followed by those kept from the rest. */
  lemma {:induction false} KeptConcat(names: seq<string>, a: seq<ResourceInfo>, b: seq<ResourceInfo>)
    ensures Kept(names, a + b) == Kept(names, a) + Kept(names, b)
    decreases |b|
  {
    if b == [] {
      assert a + b == a;
    } else {
      var front := b[..|b| - 1];
      assert (a + b)[..|a + b| - 1] == a + front;
      assert (a + b)[|a + b| - 1] == b[|b| - 1];
      KeptConcat(names, a, front);
    }
  }

  /** Once an entry fails, the rest of the response does not matter. */
  lemma EntriesForStops(names: seq<string>, rs: seq<ResourceInfo>, i: nat)
    requires i <= |rs| && EntriesFor(names, rs[..i]).failure.Some?
    ensures EntriesFor(names, rs) == EntriesFor(names, rs[..i])
  {
    assert rs[..i] + rs[i..] == rs;
    KeptConcat(names, rs[..i], rs[i..]);
    var kept := Kept(names, rs[..i]);
    assert Kept(names, rs)[..|kept|] == kept;
    MapUntilErrorStops(Kept(names, rs), EntryOf, |kept|);
  }

  /** One more record of the response, while nothing has been raised yet:
      a record not asked for adds nothing, one asked for adds its entry or
      ends the report with its error. (Stated for any way `entry` of
      building an entry, so that the proof does not look inside one.) */
  lemma KeptStep(names: seq<string>, rs: seq<ResourceInfo>, i: nat, entry: ResourceInfo -> Result<ReportEntry>)
    requires i < |rs| && MapUntilError(Kept(names, rs[..i]), entry).failure.None?
    ensures rs[i].fullName !in names ==>
      MapUntilError(Kept(names, rs[..i + 1]), entry) == MapUntilError(Kept(names, rs[..i]), entry)
    ensures rs[i].fullName in names ==>
      MapUntilError(Kept(names, rs[..i + 1]), entry) ==
        match entry(rs[i])
        case Err(e) => Partial(MapUntilError(Kept(names, rs[..i]), entry).value, Some(e))
        case Ok(y) => Partial(MapUntilError(Kept(names, rs[..i]), entry).value + [y], None)
  {
    var kept := Kept(names, rs[..i]);
    assert rs[..i + 1][..i] == rs[..i];
    if rs[i].fullName in names {
      assert Kept(names, rs[..i + 1]) == kept + [rs[i]];
      MapUntilErrorStep(kept + [rs[i]], entry, |kept|);
      assert (kept + [rs[i]])[..|kept|] == kept;
      assert (kept + [rs[i]])[..|kept| + 1] == kept + [rs[i]];
    } else {
      assert Kept(names, rs[..i + 1]) == kept;
    }
  }

  /** The loop appends one entry per kept record, in response order, each
      the entry of that record; it stops at the first kept record whose
      reservations do not convert, with that record's error. */
  lemma EntriesForSpec(names: seq<string>, rs: seq<ResourceInfo>)
    ensures var done, kept := EntriesFor(names, rs), Kept(names, rs);
      && |done.value| <= |kept|
      && (forall i :: 0 <= i < |done.value| ==> EntryOf(kept[i]) == Ok(done.value[i]))
      && (done.failure.None? ==> |done.value| == |kept|)
      && (done.failure.Some? ==> |done.value| < |kept| && EntryOf(kept[|done.value|]) == Err(done.failure.value))
  {
    MapUntilErrorSpec(Kept(names, rs), EntryOf);
  }

  /** The report comes out whole exactly when every kept record converts. */
  lemma EntriesForSucceeds(names: seq<string>, rs: seq<ResourceInfo>)
    ensures EntriesFor(names, rs).failure.None? <==>
      forall i :: 0 <= i < |Kept(names, rs)| ==> EntryOf(Kept(names, rs)[i]).Ok?
  {
    EntriesForSpec(names, rs);
  }

  // ---------------------------------------------------------------------
  // Resource list

  /** `[resource.Name for resource in resources]` */
  function NamesOf(found: seq<FoundResource>): seq<string>
  {
    seq(|found|, k requires 0 <= k < |found| => found[k].name)
  }

  /** What one `family:model` filter adds to the list:
      `family, model = entry.split(':', 1)` and the names the service finds
      for them; a filter without `:` fails to unpack. */
  function NamesForFilter(entry: string, find: (string, string) -> seq<FoundResource>): Result<seq<string>>
  {
    match SplitFirst(entry, ':')
    case None => Err(NoFamilySeparator)
    case Some((family, model)) => Ok(NamesOf(find(family, model)))
  }

  /** `NamesForFilter` for one service, as the step of the loop over filters. */
  function FilterStep(find: (string, string) -> seq<FoundResource>): string -> Result<seq<string>>
  {
    entry => NamesForFilter(entry, find)
  }

  /** The names the filters select, concatenated in filter order, and the
      error of the first filter without a `:`, which ends the loop. */
  function ResolvedNames(entries: seq<string>, find: (string, string) -> seq<FoundResource>): Partial<seq<string>>
  {
    ConcatUntilError(entries, FilterStep(find))
  }

  /** A single filter `family:model` selects what the service finds for that
      family and model; the family ends at the first `:` and the model is
      all the rest, further colons included. */
  lemma ResolvedNamesOfFilter(family: string, model: string, find: (string, string) -> seq<FoundResource>)
    requires ':' !in family
    ensures ResolvedNames([family + ":" + model], find) == Partial(NamesOf(find(family, model)), None)
  {
    var entry := family + ":" + model;
    assert entry == family + [':'] + model;
    SplitFirstOfJoin(family, ':', model);
    assert [entry][..0] == [];
    ConcatUntilErrorStep([entry], FilterStep(find), 0);
    assert [entry][..1] == [entry];
    assert [] + NamesOf(find(family, model)) == NamesOf(find(family, model));
  }

  /** Filters contribute in order and nothing is merged: the names for a
      list of filters are the names for its first part followed by those for
      the rest. */
  lemma ResolvedNamesConcat(a: seq<string>, b: seq<string>, find: (string, string) -> seq<FoundResource>)
    requires ResolvedNames(a, find).failure.None?
    ensures ResolvedNames(a + b, find) ==
      Partial(ResolvedNames(a, find).value + ResolvedNames(b, find).value, ResolvedNames(b, find).failure)
  {
    ConcatUntilErrorAppend(a, b, FilterStep(find));
  }

  /** No deduplication: a filter listed twice contributes its names twice. */
  lemma ResolvedNamesKeepsDuplicates(entry: string, find: (string, string) -> seq<FoundResource>)
    requires ':' in entry
    ensures ResolvedNames([entry, entry], find).value ==
      ResolvedNames([entry], find).value + ResolvedNames([entry], find).value
  {
    assert [entry] + [entry] == [entry, entry];
    assert [entry][..0] == [];
    ConcatUntilErrorStep([entry], FilterStep(find), 0);
    assert [entry][..1] == [entry];
    ResolvedNamesConcat([entry], [entry], find);
  }

  /** Resolution fails exactly when some filter has no `:`; it then keeps
      the names of the filters before the first such one. */
  lemma ResolvedNamesFails(entries: seq<string>, find: (string, string) -> seq<FoundResource>)
    ensures ResolvedNames(entries, find).failure.None? <==> forall k :: 0 <= k < |entries| ==> ':' in entries[k]
    ensures ResolvedNames(entries, find).failure.Some? ==>
      exists k :: 0 <= k < |entries| && ':' !in entries[k] && (forall i :: 0 <= i < k ==> ':' in entries[i]) &&
        ResolvedNames(entries, find) == Partial(ResolvedNames(entries[..k], find).value, Some(NoFamilySeparator))
  {
    var f := FilterStep(find);
    assert forall e :: f(e).Ok? <==> ':' in e;
    assert forall e :: f(e).Err? ==> f(e).error == NoFamilySeparator;
    ConcatUntilErrorFails(entries, f);
  }

  // ---------------------------------------------------------------------
  // Query window

  /** The query window in epoch seconds: each bound is a clock reading plus
      its configured offset plus `time.timezone` (seconds west of UTC);
      a start after the end is refused. */
  function QueryWindow(startOffset: int, endOffset: int, timezone: int, clockForStart: int, clockForEnd: int)
    : Result<(int, int)>
  {
    var startInstant := clockForStart + (startOffset + timezone);
    var endInstant := clockForEnd + (endOffset + timezone);
    if startInstant > endInstant then Err(InvalidWindow) else Ok((startInstant, endInstant))
  }

  /** Read at one instant, the clock cancels out, and so does the zone: the
      window is refused exactly when the start offset exceeds the end
      offset, and an accepted window spans the difference of the offsets. */
  lemma QueryWindowOfOneReading(startOffset: int, endOffset: int, timezone: int, now: int)
    ensures QueryWindow(startOffset, endOffset, timezone, now, now).Err? <==> startOffset > endOffset
    ensures QueryWindow(startOffset, endOffset, timezone, now, now).Err? ==>
      QueryWindow(startOffset, endOffset, timezone, now, now).error == InvalidWindow
    ensures QueryWindow(startOffset, endOffset, timezone, now, now).Ok? ==>
      var (s, e) := QueryWindow(startOffset, endOffset, timezone, now, now).value;
      s <= e && e - s == endOffset - startOffset && s == now + startOffset + timezone
  {
  }

  // ---------------------------------------------------------------------
  // The builder

  /** The inner loop of the report: the segments of one resource's
      reservations, built in order (end time converted, identity, name and
      owner copied, start time converted); a time that does not convert ends
      the build with its error. */
  method BuildSegments(reservations: seq<ReservationInfo>) returns (built: Partial<seq<Segment>>)
    ensures built == SegmentsOf(reservations)
  {
    var segments: seq<Segment> := [];
    var j := 0;
    while j < |reservations|
      invariant 0 <= j <= |reservations|
      invariant SegmentsOf(reservations[..j]) == Partial(segments, None)
    {
      var reservation := reservations[j];
      MapUntilErrorStep(reservations, SegmentOf, j);
      var end := ToIso8601(reservation.endTime);
      if end.Err? {
        MapUntilErrorStops(reservations, SegmentOf, j + 1);
        return Partial(segments, Some(end.error));
      }
      var start := ToIso8601(reservation.startTime);
      if start.Err? {
        MapUntilErrorStops(reservations, SegmentOf, j + 1);
        return Partial(segments, Some(start.error));
      }
      segments := segments + [Segment(end.value, reservation.reservationId, reservation.reservationName,
                                      reservation.owner, start.value)];
      j := j + 1;
    }
    assert reservations[..j] == reservations;
    built := Partial(segments, None);
  }

  /** The body of the loop over the response for one requested record:
      its `Name` as category and its segments, sorted latest end first; a
      time that does not convert raises before anything is appended. */
  method BuildEntry(resource: ResourceInfo) returns (entry: Result<ReportEntry>)
    ensures entry == EntryOf(resource)
  {
    var built := BuildSegments(resource.reservations);
    if built.failure.Some? {
      return Err(built.failure.value);
    }
    var segments := SortByEndDesc(built.value);
    entry := Ok(ReportEntry(resource.name, segments));
  }

  class ResourceAvailability {
    const param: Config
    const session: Session
    var reservationReport: seq<ReportEntry>
    var resourceList: seq<string>
    var startTime: string
    var endTime: string

    /** A fresh builder: empty report and list, no window yet. */
    constructor (param: Config, session: Session)
      ensures this.param == param && this.session == session
      ensures reservationReport == [] && resourceList == [] && startTime == "" && endTime == ""
    {
      this.param := param;
      this.session := session;
      reservationReport := [];
      resourceList := [];
      startTime := "";
      endTime := "";
    }

    /** Queries the availability of `resourceNames` over the window and
        appends one entry per returned record whose `FullName` is among
        them. Entries already in the report stay as they are; a timestamp
        that does not convert ends the loop with the entries before it
        appended. */
    method GetReservations(resourceNames: seq<string>, queryStart: string, queryEnd: string)
      returns (failure: Option<Error>)
      modifies this`reservationReport
      ensures var done := EntriesFor(resourceNames, session.resourceAvailability(resourceNames, queryStart, queryEnd));
        reservationReport == old(reservationReport) + done.value && failure == done.failure
    {
      var resources := session.resourceAvailability(resourceNames, queryStart, queryEnd);
      var i := 0;
      ghost var done := EntriesFor(resourceNames, resources[..0]);
      while i < |resources|
        invariant 0 <= i <= |resources|
        invariant done == EntriesFor(resourceNames, resources[..i]) && done.failure.None?
        invariant reservationReport == old(reservationReport) + done.value
      {
        var resource := resources[i];
        KeptStep(resourceNames, resources, i, EntryOf);
        if resource.fullName in resourceNames {
          var entry := BuildEntry(resource);
          if entry.Err? {
            EntriesForStops(resourceNames, resources, i + 1);
            return Some(entry.error);
          }
          reservationReport := reservationReport + [entry.value];
          done := Partial(done.value + [entry.value], None);
        }
        i := i + 1;
      }
      assert resources[..i] == resources;
      failure := None;
    }

    /** Rebuilds `resourceList` from the configured filters: for each
        `family:model` in order, the names the service finds. Earlier
        contents are dropped and duplicates kept; a filter without `:` ends
        the loop with the names gathered before it. */
    method GenerateResourceList() returns (failure: Option<Error>)
      modifies this`resourceList
      ensures var done := ResolvedNames(param.familyModelList, session.findResources);
        resourceList == done.value && failure == done.failure
    {
      var entries := param.familyModelList;
      resourceList := [];
      var i := 0;
      while i < |entries|
        invariant 0 <= i <= |entries|
        invariant ResolvedNames(entries[..i], session.findResources) == Partial(resourceList, None)
      {
        ConcatUntilErrorStep(entries, FilterStep(session.findResources), i);
        match SplitFirst(entries[i], ':') {
          case None =>
            ConcatUntilErrorStops(entries, FilterStep(session.findResources), i + 1);
            return Some(NoFamilySeparator);
          case Some((family, model)) =>
            var resources := session.findResources(family, model);
            resourceList := resourceList + NamesOf(resources);
        }
        i := i + 1;
      }
      assert entries[..i] == entries;
      failure := None;
    }

    /** Sets the query window from the configured offsets. `clockForStart`
        and `clockForEnd` are the two readings of the local clock in epoch
        seconds, `timezone` is `time.timezone` (seconds west of UTC), and
        `format` renders an instant as `DD/MM/YYYY HH:MM`. A start after the
        end is refused before either bound is stored. */
    method GenerateStartEndTime(clockForStart: int, clockForEnd: int, timezone: int, format: int -> string)
      returns (failure: Option<Error>)
      modifies this`startTime, this`endTime
      ensures match QueryWindow(param.startOffset, param.endOffset, timezone, clockForStart, clockForEnd)
        case Err(e) => failure == Some(e) && startTime == old(startTime) && endTime == old(endTime)
        case Ok((s, e)) => failure == None && startTime == format(s) && endTime == format(e)
    {
      var startOffset := param.startOffset + timezone;
      var endOffset := param.endOffset + timezone;
      var startInstant := clockForStart + startOffset;
      var endInstant := clockForEnd + endOffset;
      if startInstant > endInstant {
        return Some(InvalidWindow);
      }
      startTime := format(startInstant);
      endTime := format(endInstant);
      failure := None;
    }

    /** The whole run: the window first (a bad window stops everything
        before the service is asked anything), then the resource list, then
        the report for that list over that window. The result is the report
        to be written out. */
    method GetAvailability(clockForStart: int, clockForEnd: int, timezone: int, format: int -> string)
      returns (result: Result<seq<ReportEntry>>)
      modifies this`startTime, this`endTime, this`resourceList, this`reservationReport
      ensures match QueryWindow(param.startOffset, param.endOffset, timezone, clockForStart, clockForEnd)
        case Err(e) =>
          && result == Err(e)
          && startTime == old(startTime) && endTime == old(endTime)
          && resourceList == old(resourceList) && reservationReport == old(reservationReport)
        case Ok((s, e)) =>
          var names := ResolvedNames(param.familyModelList, session.findResources);
          && startTime == format(s) && endTime == format(e)
          && resourceList == names.value
          && if names.failure.Some? then
               result == Err(names.failure.value) && reservationReport == old(reservationReport)
             else
               var done := EntriesFor(names.value, session.resourceAvailability(names.value, format(s), format(e)));
               && reservationReport == old(reservationReport) + done.value
               && result == (if done.failure.Some? then Err(done.failure.value) else Ok(reservationReport))
    {
      var failure := GenerateStartEndTime(clockForStart, clockForEnd, timezone, format);
      if failure.Some? {
        return Err(failure.value);
      }
      failure := GenerateResourceList();
      if failure.Some? {
        return Err(failure.value);
      }
      failure := GetReservations(resourceList, startTime, endTime);
      if failure.Some? {
        return Err(failure.value);
      }
      result := Ok(reservationReport);
    }
  }
}
