/** Reservation timestamps. The reservation service renders a time as
    `MM/DD/YYYY <time>`; the report uses the calendar-date ordering of
    ISO 8601 (section 5.2.1.1 of ISO 8601:2004, extended format),
    `YYYY-MM-DD <time>`. The conversion only moves the three date fields;
    the time of day after the first space is carried over verbatim. */
module Timestamps {
  import opened Outcomes
  import opened Text

  /** A timestamp laid out as three date fields joined by `sep`, a space,
      and the time of day. */
  function Stamp(first: string, second: string, third: string, clock: string, sep: char): string
  {
    first + [sep] + second + [sep] + third + " " + clock
  }

  /** The service's layout, `MM/DD/YYYY <time>`. */
  function ServiceForm(month: string, day: string, year: string, clock: string): string
  {
    Stamp(month, day, year, clock, '/')
  }

  /** The report's layout, `YYYY-MM-DD <time>`. */
  function IsoForm(month: string, day: string, year: string, clock: string): string
  {
    Stamp(year, month, day, clock, '-')
  }

  /** A date field as it can come out of splitting: it holds neither the
      field separator nor a space (the first space ends the date). */
  predicate Field(f: string, sep: char)
  {
    sep !in f && ' ' !in f
  }

  /** `date, time = s.split(' ', 1)` followed by
      `first, second, third = date.split(sep)`, with the two unpacking
      failures of Python as errors. */
  function SplitStamp(s: string, sep: char): Result<(string, string, string, string)>
  {
    match SplitFirst(s, ' ')
    case None => Err(NoTimeSeparator)
    case Some((date, clock)) =>
      var fields := SplitAll(date, sep);
      if |fields| != 3 then Err(DateFieldCount(|fields|))
      else Ok((fields[0], fields[1], fields[2], clock))
  }

  /** `_convert_to_ISO8601`: reorders month, day and year of a service
      timestamp into year, month, day. */
  function ToIso8601(dtsIn: string): Result<string>
  {
    match SplitStamp(dtsIn, '/')
    case Err(e) => Err(e)
    case Ok((month, day, year, clock)) => Ok(IsoForm(month, day, year, clock))
  }

  /** The inverse rewriting, `YYYY-MM-DD <time>` back to `MM/DD/YYYY <time>`. */
  function FromIso8601(iso: string): Result<string>
  {
    match SplitStamp(iso, '-')
    case Err(e) => Err(e)
    case Ok((year, month, day, clock)) => Ok(ServiceForm(month, day, year, clock))
  }

  /** Splitting a laid-out timestamp recovers its parts. */
  lemma SplitStampOfStamp(first: string, second: string, third: string, clock: string, sep: char)
    requires sep != ' '
    requires Field(first, sep) && Field(second, sep) && Field(third, sep)
    ensures SplitStamp(Stamp(first, second, third, clock, sep), sep) == Ok((first, second, third, clock))
  {
    var date := first + [sep] + second + [sep] + third;
    assert Stamp(first, second, third, clock, sep) == date + [' '] + clock;
    SplitFirstOfJoin(date, ' ', clock);
    var parts := [first, second, third];
    assert Join(parts, sep) == date by {
      assert parts[1..] == [second, third];
      assert parts[1..][1..] == [third];
      assert Join(parts[1..], sep) == second + [sep] + third;
      assert date == first + [sep] + (second + [sep] + third);
    }
    SplitAllOfJoin(parts, sep);
  }

  /** Whatever splits successfully was laid out as a `Stamp` of
      separator-free fields. */
  lemma SplitStampIsStamp(s: string, sep: char)
    requires SplitStamp(s, sep).Ok?
    ensures var (first, second, third, clock) := SplitStamp(s, sep).value;
      && Field(first, sep) && Field(second, sep) && Field(third, sep)
      && s == Stamp(first, second, third, clock, sep)
  {
    var (date, clock) := SplitFirst(s, ' ').value;
    var fields := SplitAll(date, sep);
    assert fields[1..] == [fields[1], fields[2]];
    assert fields[1..][1..] == [fields[2]];
    assert Join(fields[1..], sep) == fields[1] + [sep] + fields[2];
    assert date == fields[0] + [sep] + (fields[1] + [sep] + fields[2]);
    assert date == fields[0] + [sep] + fields[1] + [sep] + fields[2];
  }

  /** A service timestamp `MM/DD/YYYY <time>` converts to exactly
      `YYYY-MM-DD <time>`. */
  lemma ToIso8601OfServiceForm(month: string, day: string, year: string, clock: string)
    requires Field(month, '/') && Field(day, '/') && Field(year, '/')
    ensures ToIso8601(ServiceForm(month, day, year, clock)) == Ok(IsoForm(month, day, year, clock))
  {
    SplitStampOfStamp(month, day, year, clock, '/');
  }

  /** The conversion succeeds exactly on service-form timestamps, and then
      yields the same fields in ISO order. */
  lemma ToIso8601Succeeds(s: string)
    ensures ToIso8601(s).Ok? <==>
      exists month, day, year, clock ::
        Field(month, '/') && Field(day, '/') && Field(year, '/') && s == ServiceForm(month, day, year, clock)
        && ToIso8601(s) == Ok(IsoForm(month, day, year, clock))
  {
    if ToIso8601(s).Ok? {
      SplitStampIsStamp(s, '/');
      var (month, day, year, clock) := SplitStamp(s, '/').value;
      assert s == ServiceForm(month, day, year, clock);
    } else if exists month, day, year, clock ::
        Field(month, '/') && Field(day, '/') && Field(year, '/') && s == ServiceForm(month, day, year, clock) {
      var month, day, year, clock :|
        Field(month, '/') && Field(day, '/') && Field(year, '/') && s == ServiceForm(month, day, year, clock);
      ToIso8601OfServiceForm(month, day, year, clock);
    }
  }

  /** The two ways the conversion fails: no space at all, or a date part
      (the text before the first space) with other than two slashes. */
  lemma ToIso8601Fails(date: string, clock: string, noSpace: string)
    requires ' ' !in date && multiset(date)['/'] != 2
    requires ' ' !in noSpace
    ensures ToIso8601(date + " " + clock) == Err(DateFieldCount(multiset(date)['/'] + 1))
    ensures ToIso8601(noSpace) == Err(NoTimeSeparator)
  {
    SplitFirstOfJoin(date, ' ', clock);
  }

  /** Everything after the first space (the time of day) comes through the
      conversion unchanged, and the length of the text is kept. */
  lemma ToIso8601KeepsClock(s: string)
    requires ToIso8601(s).Ok?
    ensures SplitFirst(ToIso8601(s).value, ' ').Some?
    ensures SplitFirst(ToIso8601(s).value, ' ').value.1 == SplitFirst(s, ' ').value.1
    ensures |ToIso8601(s).value| == |s|
  {
    SplitStampIsStamp(s, '/');
    var (month, day, year, clock) := SplitStamp(s, '/').value;
    SplitFirstOfJoin(month + "/" + day + "/" + year, ' ', clock);
    SplitFirstOfJoin(year + "-" + month + "-" + day, ' ', clock);
    assert ServiceForm(month, day, year, clock) == month + "/" + day + "/" + year + [' '] + clock;
    assert IsoForm(month, day, year, clock) == year + "-" + month + "-" + day + [' '] + clock;
  }

  /** Reformatting only permutes the date fields: swapping them back
      recovers the service timestamp exactly, provided no field itself
      contains the ISO separator `-`. */
  lemma {:induction false} ServiceRoundTrip(month: string, day: string, year: string, clock: string)
    requires Field(month, '/') && Field(day, '/') && Field(year, '/')
    requires '-' !in month && '-' !in day && '-' !in year
    ensures ToIso8601(ServiceForm(month, day, year, clock)).Ok?
    ensures FromIso8601(ToIso8601(ServiceForm(month, day, year, clock)).value) == Ok(ServiceForm(month, day, year, clock))
  {
    ToIso8601OfServiceForm(month, day, year, clock);
    SplitStampOfStamp(year, month, day, clock, '-');
  }

  /** And the other way round: an ISO timestamp whose fields have no `/`
      survives the trip to the service layout and back. */
  lemma {:induction false} IsoRoundTrip(iso: string)
    requires FromIso8601(iso).Ok?
    requires var (year, month, day, clock) := SplitStamp(iso, '-').value; '/' !in year + month + day
    ensures ToIso8601(FromIso8601(iso).value) == Ok(iso)
  {
    SplitStampIsStamp(iso, '-');
    var (year, month, day, clock) := SplitStamp(iso, '-').value;
    ToIso8601OfServiceForm(month, day, year, clock);
  }
}
