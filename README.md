# Resource availability report, modelled in Dafny

`ResourceAvailability` (resource_availability/availability_builder.py) builds
a reservation report for a CloudShell inventory. It works in three steps:

1. It computes a query window from two configured offsets, in seconds from
   now. A start after the end raises.
2. It resolves the configured `family:model` filters into resource names
   through `FindResources`, in filter order.
3. It asks `GetResourceAvailabilityInTimeRange` for those names and appends
   one report entry per returned resource whose `FullName` is among them.
   An entry holds the resource's `Name` and one segment per reservation. The
   service's `MM/DD/YYYY <time>` stamps are rewritten as `YYYY-MM-DD <time>`.
   The segments are sorted by end time, latest first.

The model keeps that structure:

- `Outcomes.dfy`: errors, `Option`, `Result`, and `Partial`, which records
  what a Python loop had appended when an exception stopped it. It also has
  the two loop shapes the code uses: append per element, and concatenate per
  element.
- `Text.dfy`: Python's `split(sep, 1)`, `split(sep)`, `join` and string `<=`.
- `Timestamps.dfy`: `_convert_to_ISO8601` and its inverse.
- `SegmentSort.dfy`: `sorted(..., key=end, reverse=True)` as a stable
  insertion sort, with its specification.
- `AvailabilityBuilder.dfy`: the records, the report, the resource list, the
  window, and the class `ResourceAvailability`. The class has the mutable
  fields `reservationReport`, `resourceList`, `startTime` and `endTime`, and
  its methods run the loops of the source. Each method is proved equal to a
  specification function, and the properties are proved about those
  functions.
- `Scenarios.dfy`: concrete instances:
  - one timestamp conversion;
  - the ordering of three end times;
  - an empty-model filter;
  - a whole one-resource report.

The model follows what the code does, including two points one might not
expect:

- The resource list is not deduplicated. A filter listed twice contributes
  its names twice.
- Every requested resource the service returns gets an entry, even one with
  no reservations.

The code also matches the `Name`s found by `FindResources` against the
`FullName` of each availability record, and the model keeps that comparison.
An exception in `_convert_to_ISO8601` or in a filter's `split` ends the
whole run. The entries or names appended before it stay in the object's
fields; the model returns the error and keeps those partial contents.

## Model

| member | source | states |
|---|---|---|
| Text.SplitFirst | resource_availability/availability_builder.py:55 | `split(' ', 1)` unpacks iff the separator occurs; then the text is head + separator + tail, and the head has no separator |
| Text.SplitFirstOfJoin | resource_availability/availability_builder.py:102 | splitting at the first `:` recovers a family without `:` and the whole rest as model |
| Text.SplitAll | resource_availability/availability_builder.py:56 | `date.split('/')` gives one more field than there are slashes, no field holds a slash, and joining the fields gives the date back |
| Text.SplitAllOfJoin | resource_availability/availability_builder.py:56 | splitting undoes joining separator-free fields |
| Text.LexLeTotal | resource_availability/availability_builder.py:89 | any two `end` strings are comparable under Python's `<=` |
| Text.LexLeTransitive | resource_availability/availability_builder.py:89 | string `<=` is transitive |
| Text.LexLeAntisymmetric | resource_availability/availability_builder.py:89 | strings equal under `<=` both ways are identical, so the sort only ties on equal ends |
| Text.LexLeReflexive | resource_availability/availability_builder.py:89 | string `<=` is reflexive |
| Timestamps.SplitStampOfStamp | resource_availability/availability_builder.py:55-56 | splitting a stamp of three separator-free fields and a time recovers exactly those parts |
| Timestamps.SplitStampIsStamp | resource_availability/availability_builder.py:55-56 | whatever splits successfully is such a stamp |
| Timestamps.ToIso8601OfServiceForm | resource_availability/availability_builder.py:48-58 | `MM/DD/YYYY <time>` becomes exactly `YYYY-MM-DD <time>` |
| Timestamps.ToIso8601Succeeds | resource_availability/availability_builder.py:55-58 | the conversion succeeds iff the input is in the service layout, and then yields the same fields in ISO order |
| Timestamps.ToIso8601Fails | resource_availability/availability_builder.py:55-56 | no space gives the unpacking error; a date part with other than two slashes gives the field-count error with the actual count |
| Timestamps.ToIso8601KeepsClock | resource_availability/availability_builder.py:55-58 | the text after the first space (hour and minute) is carried over verbatim, and the length is kept |
| Timestamps.ServiceRoundTrip | resource_availability/availability_builder.py:48-58 | converting to ISO order and back gives the service stamp again |
| Timestamps.IsoRoundTrip | resource_availability/availability_builder.py:48-58 | converting an ISO stamp to the service layout and back gives it again |
| SegmentSort.InsertPermutes | resource_availability/availability_builder.py:89 | insertion adds exactly one copy of the segment |
| SegmentSort.InsertSorted | resource_availability/availability_builder.py:89 | insertion keeps a sequence ordered latest end first |
| SegmentSort.InsertStable | resource_availability/availability_builder.py:89 | insertion keeps the original order among equal ends |
| SegmentSort.WithEndSelects | resource_availability/availability_builder.py:89 | the per-key view only selects segments of the input with that key |
| SegmentSort.WithEndAppend | resource_availability/availability_builder.py:89 | the per-key view of two sequences in a row is the view of the first followed by the view of the second |
| SegmentSort.SortByEndDescSorted | resource_availability/availability_builder.py:89 | the sorted segments are ordered latest end first |
| SegmentSort.SortByEndDescPermutes | resource_availability/availability_builder.py:89 | the sorted segments are a permutation of the input |
| SegmentSort.SortByEndDescStable | resource_availability/availability_builder.py:89 | segments with equal ends keep their input order, as Python's stable sort with `reverse=True` does |
| SegmentSort.SortedFirstIsLatest | resource_availability/availability_builder.py:89 | in a sorted sequence the first segment has the latest end |
| SegmentSort.SortedStableSameFirst | resource_availability/availability_builder.py:89 | two sorted, order-keeping arrangements start with the same segment |
| SegmentSort.SortedStableUnique | resource_availability/availability_builder.py:89 | two sorted, order-keeping arrangements of the same segments are equal |
| SegmentSort.SortByEndDescIsStableSort | resource_availability/availability_builder.py:89 | any result that is ordered and stable equals the sort, so the sort is the one stable descending sort |
| Outcomes.MapUntilErrorSpec | resource_availability/availability_builder.py:79-87 | an appending loop keeps `f` of each element up to the first failure, whose error is the one raised |
| Outcomes.ConcatUntilErrorFails | resource_availability/availability_builder.py:101-105 | a concatenating loop raises iff some element fails, with the first failing element's error, and keeps what came before |
| Outcomes.ConcatUntilErrorAppend | resource_availability/availability_builder.py:101-105 | the loop over two lists adds what the first adds, then what the second adds |
| AvailabilityBuilder.SegmentOfSpec | resource_availability/availability_builder.py:80-85 | a reservation yields a segment iff both its times convert; the segment copies id, name and owner and holds both converted times |
| AvailabilityBuilder.SegmentsOfSpec | resource_availability/availability_builder.py:79-87 | building succeeds iff every reservation converts, with one copying segment per reservation in order; otherwise it stops at the first bad reservation |
| AvailabilityBuilder.EntryOfSpec | resource_availability/availability_builder.py:76-89 | an entry exists iff all reservations convert; it is named by the record's `Name`, and its segments are the built ones, sorted, permuted and order-keeping per end |
| AvailabilityBuilder.KeptMembers | resource_availability/availability_builder.py:74-75 | a record is reported iff it was returned and its `FullName` is among the requested names |
| AvailabilityBuilder.KeptConcat | resource_availability/availability_builder.py:74-75 | the filter keeps response order |
| AvailabilityBuilder.KeptStep | resource_availability/availability_builder.py:74-90 | one turn of the response loop: an unrequested record adds nothing; a requested one adds its entry or ends the loop with its error |
| AvailabilityBuilder.EntriesForStops | resource_availability/availability_builder.py:74-90 | after an entry fails, the rest of the response does not affect the report |
| AvailabilityBuilder.EntriesForSpec | resource_availability/availability_builder.py:74-90 | the report gains the entry of each kept record in order, up to the first failing record, whose error is raised |
| AvailabilityBuilder.EntriesForSucceeds | resource_availability/availability_builder.py:74-90 | the report is complete iff every kept record's entry builds |
| AvailabilityBuilder.ResolvedNamesOfFilter | resource_availability/availability_builder.py:101-105 | the filter `family:model` selects exactly the names the service finds for that family and model |
| AvailabilityBuilder.ResolvedNamesConcat | resource_availability/availability_builder.py:100-105 | filters contribute in order and nothing is merged |
| AvailabilityBuilder.ResolvedNamesKeepsDuplicates | resource_availability/availability_builder.py:105 | a filter listed twice contributes its names twice |
| AvailabilityBuilder.ResolvedNamesFails | resource_availability/availability_builder.py:101-102 | resolving fails iff some filter has no `:`; then the names of the filters before the first such one are kept |
| AvailabilityBuilder.QueryWindowOfOneReading | resource_availability/availability_builder.py:114-121 | for one clock reading the window is refused iff the start offset exceeds the end offset; an accepted window has start no later than end and spans the difference of the offsets |
| AvailabilityBuilder.BuildSegments | resource_availability/availability_builder.py:79-87 | the inner loop builds exactly the segments of the specification, stopping at the first bad time |
| AvailabilityBuilder.BuildEntry | resource_availability/availability_builder.py:76-89 | the body for one requested record builds exactly its specified entry, or raises the error of its first bad time |
| AvailabilityBuilder.ResourceAvailability.constructor | resource_availability/availability_builder.py:14-22 | a new builder has an empty report and list, empty window strings, and the given configuration and service |
| AvailabilityBuilder.ResourceAvailability.GetReservations | resource_availability/availability_builder.py:60-90 | the report becomes the old report followed by the entries of the requested records the service returns; a bad timestamp raises with the earlier entries appended |
| AvailabilityBuilder.ResourceAvailability.GenerateResourceList | resource_availability/availability_builder.py:92-105 | the list is replaced by the names of the filters in order; a filter without `:` raises with the names gathered before it |
| AvailabilityBuilder.ResourceAvailability.GenerateStartEndTime | resource_availability/availability_builder.py:107-124 | a start after the end raises and leaves both strings alone; otherwise both bounds are stored formatted |
| AvailabilityBuilder.ResourceAvailability.GetAvailability | resource_availability/availability_builder.py:126-134 | window, then list, then report, each failure ending the run. A refused window leaves the window strings, the list and the report as they were. The result is the report that would be written |
| Scenarios.PiDayToIso | resource_availability/availability_builder.py:48-58 | `03/14/2024 09:30` converts to `2024-03-14 09:30` |
| Scenarios.PiDayFromIso | resource_availability/availability_builder.py:48-58 | `2024-03-14 09:30` converts back to `03/14/2024 09:30` |
| Scenarios.ThreeEndsSorted | resource_availability/availability_builder.py:89 | segments ending 1, 3 and 2 January 2024 come out ordered 3, 2, 1 January |
| Scenarios.EmptyModelFilter | resource_availability/availability_builder.py:101-103 | the filter `Switch:` asks for family `Switch` with an empty model |
| Scenarios.OneRouterReport | resource_availability/availability_builder.py:74-90 | one requested resource with one 10:00-12:00 reservation gives a one-entry report whose segment carries both times in ISO order |

## Left out

- Session creation and its error message (availability_builder.py:24-39). The session is a parameter: a value holding the two service queries as functions.
- Reading the configuration file (resource_availability/lib/yaml_config.py). The configuration is a value with the filter list and the two offsets.
- Failures of the service calls themselves, such as network or API errors. The queries are total functions here.
- `_get_dts` (availability_builder.py:41-46). It only feeds the connection error message.
- `resource_by_name` (availability_builder.py:17). The code never reads or writes it after construction.
- Writing the report as JSON to the output file (availability_builder.py:136-137). `GetAvailability` returns the report that would be serialised.
- The clock and time formatting: `time.localtime`, `time.mktime`, `time.timezone` and `strftime` (availability_builder.py:114-124). The two clock readings and the zone offset are integer parameters, and `strftime('%d/%m/%Y %H:%M', ...)` is a function parameter `format`.
- AvailabilityBuilder.ResourceAvailability.GenerateStartEndTime: compares the two instants as integers, where the code compares the `struct_time` tuples of local time. The two orders differ only inside the repeated hour when daylight saving time ends.
- The query window strings only go to the availability query, so the model says nothing about their content beyond being `format` of the bounds.
- The Python 2 `str`/`unicode` distinction. Strings are sequences of characters.
