/**
  The event side of the parser: `__get_events` (SiouxParser.py:93-122)
  assembles five parallel columns from the nodes of the events overview
  page, `filter_events_category` (SiouxParser.py:267-285) builds the
  category filter, and `parse_events` (SiouxParser.py:320-347) keeps and
  formats the events that pass the title, category and date filters.

  The page is given as the node lists BeautifulSoup would return for the
  four configured selectors.
*/
module Events {
  import opened Base
  import opened Dates
  import opened Text
  import opened DateExtractor
  import opened DateFiltering

  /** A title node: its text and the `href` of its first `<a href>` (None when it has none). */
  datatype TitleNode = TitleNode(text: string, href: Option<string>)

  /** The four node lists of the events overview page: dates, titles, locations, categories. */
  datatype EventsPage = EventsPage(dateTexts: seq<string>, titles: seq<TitleNode>,
                                   locations: seq<string>, categories: seq<string>)

  /** One event as `__get_events` records it. */
  datatype EventRow = EventRow(dates: Option<seq<Date>>, title: string, location: string, category: string, url: string)

  /** `dict_events`: five parallel columns. */
  datatype RawEvents = RawEvents(dates: seq<Option<seq<Date>>>, titles: seq<string>, locations: seq<string>,
                                 categories: seq<string>, urls: seq<string>)

  /** One record returned by `parse_events`. */
  datatype EventOut = EventOut(date: Option<string>, title: string, location: string, category: string, url: string)

  /** The five configured category names, in the order filter_events_category takes its flags. */
  datatype CategoryNames = CategoryNames(socialPartner: string, socialColleague: string, powwow: string,
                                         training: string, expGroup: string)

  // ---- filter_events_category --------------------------------------------------------

  /**
    `filter_events_category`: a map over exactly the five configured names.
    The dict starts from `dict.fromkeys` of the names, whose placeholder
    values are all overwritten, so only the five assignments matter; when
    two names coincide the later assignment wins.
  */
  method FilterEventsCategory(names: CategoryNames, socialPartner: bool, socialColleague: bool,
                              powwow: bool, training: bool, expGroup: bool)
    returns (d: map<string, bool>)
    ensures d.Keys == {names.socialPartner, names.socialColleague, names.powwow, names.training, names.expGroup}
    ensures d[names.expGroup] == expGroup
    ensures names.training != names.expGroup ==> d[names.training] == training
    ensures names.powwow !in {names.training, names.expGroup} ==> d[names.powwow] == powwow
    ensures names.socialColleague !in {names.powwow, names.training, names.expGroup}
            ==> d[names.socialColleague] == socialColleague
    ensures names.socialPartner !in {names.socialColleague, names.powwow, names.training, names.expGroup}
            ==> d[names.socialPartner] == socialPartner
  {
    d := map[];
    d := d[names.socialPartner := socialPartner];
    d := d[names.socialColleague := socialColleague];
    d := d[names.powwow := powwow];
    d := d[names.training := training];
    d := d[names.expGroup := expGroup];
  }

  // ---- __get_events ------------------------------------------------------------------

  /** `__parse_event_date` on every date node, in page order. */
  function DateResults(months: MonthNames, texts: seq<string>): (r: seq<Result<Option<seq<Date>>>>)
    ensures |r| == |texts| && forall k :: 0 <= k < |texts| ==> r[k] == ParseEventDate(months, texts[k])
  {
    seq(|texts|, k requires 0 <= k < |texts| => ParseEventDate(months, texts[k]))
  }

  /**
    One pass of the zip loop: the prettified title, location and category,
    and the link, which raises TypeError when the title holds no `<a href>`.
  */
  function AssembleRow(base: string, dates: Option<seq<Date>>, title: TitleNode, location: string, category: string): Result<EventRow> {
    match title.href
    case None => Err(MissingLink)
    case Some(href) => Ok(EventRow(dates, Prettify(title.text), Prettify(location), Prettify(category), base + href))
  }

  /** Length of the zip of the parsed dates with the three other node lists. */
  function ZipLength(dates: seq<Option<seq<Date>>>, page: EventsPage): nat {
    Min(Min(|dates|, |page.titles|), Min(|page.locations|, |page.categories|))
  }

  /** The zip loop's outcome for every row. */
  function RowResults(base: string, dates: seq<Option<seq<Date>>>, page: EventsPage): (r: seq<Result<EventRow>>)
    ensures |r| == ZipLength(dates, page)
    ensures forall k :: 0 <= k < |r| ==>
      r[k] == AssembleRow(base, dates[k], page.titles[k], page.locations[k], page.categories[k])
  {
    var n := ZipLength(dates, page);
    seq(n, k requires 0 <= k < n => AssembleRow(base, dates[k], page.titles[k], page.locations[k], page.categories[k]))
  }

  /** The five columns of a list of rows. */
  function Columns(rows: seq<EventRow>): (raw: RawEvents)
    ensures |raw.dates| == |raw.titles| == |raw.locations| == |raw.categories| == |raw.urls| == |rows|
    ensures forall k :: 0 <= k < |rows| ==>
      rows[k] == EventRow(raw.dates[k], raw.titles[k], raw.locations[k], raw.categories[k], raw.urls[k])
  {
    RawEvents(seq(|rows|, k requires 0 <= k < |rows| => rows[k].dates),
              seq(|rows|, k requires 0 <= k < |rows| => rows[k].title),
              seq(|rows|, k requires 0 <= k < |rows| => rows[k].location),
              seq(|rows|, k requires 0 <= k < |rows| => rows[k].category),
              seq(|rows|, k requires 0 <= k < |rows| => rows[k].url))
  }

  /**
    What `__get_events` stores: every date node is parsed first (one bad
    date raises), then the zip loop builds one row per index of the
    shortest node list (one missing link raises).
  */
  function EventsTable(months: MonthNames, base: string, page: EventsPage): Result<RawEvents> {
    match Collect(DateResults(months, page.dateTexts))
    case Err(e) => Err(e)
    case Ok(dates) =>
      match Collect(RowResults(base, dates, page))
      case Err(e) => Err(e)
      case Ok(rows) => Ok(Columns(rows))
  }

  /** Length of the zip of the four node lists. */
  function PageLength(page: EventsPage): nat {
    Min(Min(|page.dateTexts|, |page.titles|), Min(|page.locations|, |page.categories|))
  }

  /**
    The table `__get_events` stores has five columns as long as the
    shortest of the four node lists, and row k holds the parsed k-th date
    node, the prettified k-th title, location and category, and the base
    URL joined to the k-th title's link.
  */
  lemma EventsTableRows(months: MonthNames, base: string, page: EventsPage)
    requires EventsTable(months, base, page).Ok?
    ensures var raw := EventsTable(months, base, page).value;
      && |raw.dates| == |raw.titles| == |raw.locations| == |raw.categories| == |raw.urls| == PageLength(page)
      && forall k :: 0 <= k < PageLength(page) ==>
           && ParseEventDate(months, page.dateTexts[k]) == Ok(raw.dates[k])
           && raw.titles[k] == Prettify(page.titles[k].text)
           && raw.locations[k] == Prettify(page.locations[k])
           && raw.categories[k] == Prettify(page.categories[k])
           && page.titles[k].href.Some? && raw.urls[k] == base + page.titles[k].href.value
  {
    var ds := Collect(DateResults(months, page.dateTexts));
    var rs := RowResults(base, ds.value, page);
    var raw := Columns(Collect(rs).value);
    forall k | 0 <= k < PageLength(page)
      ensures page.titles[k].href.Some? && raw.urls[k] == base + page.titles[k].href.value
    {
      assert rs[k].Ok?;
    }
  }

  /**
    `__get_events` fails exactly when a date node anywhere on the page fails
    to parse (ValueError), or else when one of the zipped titles has no
    link (TypeError).
  */
  lemma EventsTableFailure(months: MonthNames, base: string, page: EventsPage)
    ensures (exists k :: 0 <= k < |page.dateTexts| && ParseEventDate(months, page.dateTexts[k]).Err?)
            ==> EventsTable(months, base, page) == Err(DateFormatMismatch)
    ensures (forall k :: 0 <= k < |page.dateTexts| ==> ParseEventDate(months, page.dateTexts[k]).Ok?)
            ==> (EventsTable(months, base, page).Err?
                 <==> exists k :: 0 <= k < PageLength(page) && page.titles[k].href.None?)
    ensures EventsTable(months, base, page).Err? ==>
              EventsTable(months, base, page).error in {DateFormatMismatch, MissingLink}
    ensures (forall k :: 0 <= k < |page.dateTexts| ==> ParseEventDate(months, page.dateTexts[k]).Ok?)
            && (exists k :: 0 <= k < PageLength(page) && page.titles[k].href.None?)
            ==> EventsTable(months, base, page) == Err(MissingLink)
  {
    DateFailure(months, base, page);
    var ds := Collect(DateResults(months, page.dateTexts));
    if ds.Ok? {
      LinkFailure(base, ds.value, page);
    }
  }

  /** A date node strptime rejects makes the whole table a ValueError. */
  lemma DateFailure(months: MonthNames, base: string, page: EventsPage)
    ensures (exists k :: 0 <= k < |page.dateTexts| && ParseEventDate(months, page.dateTexts[k]).Err?)
            ==> EventsTable(months, base, page) == Err(DateFormatMismatch)
  {
    var xs := DateResults(months, page.dateTexts);
    if exists k :: 0 <= k < |page.dateTexts| && ParseEventDate(months, page.dateTexts[k]).Err? {
      var k :| 0 <= k < |page.dateTexts| && ParseEventDate(months, page.dateTexts[k]).Err?;
      CollectUniformError(xs, DateFormatMismatch, k);
    }
  }

  /** With every date parsed, building the rows fails exactly when a zipped title has no link. */
  lemma LinkFailure(base: string, dates: seq<Option<seq<Date>>>, page: EventsPage)
    requires |dates| == |page.dateTexts|
    ensures Collect(RowResults(base, dates, page)).Err? <==> exists k :: 0 <= k < PageLength(page) && page.titles[k].href.None?
    ensures Collect(RowResults(base, dates, page)).Err? ==> Collect(RowResults(base, dates, page)).error == MissingLink
  {
    var rs := RowResults(base, dates, page);
    if Collect(rs).Err? {
      var k :| 0 <= k < |rs| && rs[k] == Err(Collect(rs).error) && forall j :: 0 <= j < k ==> rs[j].Ok?;
      assert page.titles[k].href.None?;
    }
  }


  /**
    `__get_events`: the date comprehension over every date node, then the
    zip loop appending one value to each of the five columns.
  */
  method ExtractEvents(months: MonthNames, base: string, page: EventsPage) returns (r: Result<RawEvents>)
    ensures r == EventsTable(months, base, page)
  {
    // the date list comprehension: every date node is parsed before the zip
    var parsed := Collect(DateResults(months, page.dateTexts));
    if parsed.Err? {
      return Err(parsed.error);
    }
    var dates := parsed.value;
    var n := ZipLength(dates, page);
    ghost var rs := RowResults(base, dates, page);
    ghost var rows: seq<EventRow> := [];
    var dateCol: seq<Option<seq<Date>>> := [];
    var titles: seq<string> := [];
    var locations: seq<string> := [];
    var categories: seq<string> := [];
    var urls: seq<string> := [];
    var k := 0;
    while k < n
      invariant 0 <= k <= n
      invariant Collect(rs[..k]) == Ok(rows)
      invariant RawEvents(dateCol, titles, locations, categories, urls) == Columns(rows)
    {
      var title := page.titles[k];
      if title.href.None? {
        CollectStep(rs, k);
        CollectPrefixError(rs, k + 1);
        return Err(MissingLink);
      }
      var row := EventRow(dates[k], Prettify(title.text), Prettify(page.locations[k]),
                          Prettify(page.categories[k]), base + title.href.value);
      CollectStep(rs, k);
      ColumnsSnoc(rows, row);
      rows := rows + [row];
      dateCol := dateCol + [row.dates];
      titles := titles + [row.title];
      locations := locations + [row.location];
      categories := categories + [row.category];
      urls := urls + [row.url];
      k := k + 1;
    }
    assert rs[..k] == rs;
    return Ok(RawEvents(dateCol, titles, locations, categories, urls));
  }

  lemma ColumnsSnoc(rows: seq<EventRow>, row: EventRow)
    ensures Columns(rows + [row])
         == RawEvents(Columns(rows).dates + [row.dates], Columns(rows).titles + [row.title],
                      Columns(rows).locations + [row.location], Columns(rows).categories + [row.category],
                      Columns(rows).urls + [row.url])
  {
  }

  // ---- parse_events ------------------------------------------------------------------

  /** Python's `zip` over the five columns: one row per index of the shortest. */
  function Rows(raw: RawEvents): (rows: seq<EventRow>)
    ensures |rows| == Min(Min(Min(|raw.dates|, |raw.titles|), Min(|raw.locations|, |raw.categories|)), |raw.urls|)
    ensures forall k :: 0 <= k < |rows| ==>
      rows[k] == EventRow(raw.dates[k], raw.titles[k], raw.locations[k], raw.categories[k], raw.urls[k])
  {
    var n := Min(Min(Min(|raw.dates|, |raw.titles|), Min(|raw.locations|, |raw.categories|)), |raw.urls|);
    seq(n, k requires 0 <= k < n => EventRow(raw.dates[k], raw.titles[k], raw.locations[k], raw.categories[k], raw.urls[k]))
  }

  /** Zipping the columns of a list of rows gives the rows back. */
  lemma ZipColumns(rows: seq<EventRow>)
    ensures Rows(Columns(rows)) == rows
  {
  }

  /**
    The `time` of a kept event (SiouxParser.py:339-344): a range for two
    different dates, one date for a single date or an equal pair, nothing
    for longer lists whose first two dates differ; an empty list fails on
    `date[0]`.
  */
  function RenderTime(ds: seq<Date>): Result<Option<string>> {
    if |ds| == 2 && ds[0] != ds[1] then Ok(Some(Format(ds[0]) + " - " + Format(ds[1])))
    else if |ds| == 1 then Ok(Some(Format(ds[0])))
    else if |ds| == 0 then Err(IndexOutOfRange)
    else if ds[0] == ds[1] then Ok(Some(Format(ds[0])))
    else Ok(None)
  }

  /**
    The rendered time of one or two valid dates reads back as those dates:
    "dd/mm/yyyy" for one date (or an equal pair), "dd/mm/yyyy - dd/mm/yyyy"
    for two different ones.
  */
  lemma RenderTimeReadsBack(ds: seq<Date>)
    requires 1 <= |ds| <= 2 && forall k :: 0 <= k < |ds| ==> IsValid(ds[k])
    ensures RenderTime(ds).Ok? && RenderTime(ds).value.Some?
    ensures var s := RenderTime(ds).value.value;
      if IsMultiDay(ds)
      then |s| == 23 && s[10..13] == " - " && Unformat(s[..10]) == ds[0] && Unformat(s[13..]) == ds[1]
      else |s| == 10 && Unformat(s) == ds[0]
  {
    FormatRoundTrip(ds[0]);
    if IsMultiDay(ds) {
      FormatRoundTrip(ds[1]);
      var s := Format(ds[0]) + " - " + Format(ds[1]);
      assert s[..10] == Format(ds[0]);
      assert s[13..] == Format(ds[1]);
    }
  }

  /**
    What `parse_events` does with one row, in the order Python's `and`
    evaluates: the title test first (a miss skips the row), then the
    category lookup (a missing key raises KeyError), then the date filter;
    a kept row is rendered as a record.
  */
  function Outcome(fc: map<string, bool>, fd: DateFilter, filterTitle: string, today: Date, row: EventRow): Result<Option<EventOut>> {
    if !Contains(row.title, filterTitle) then Ok(None)
    else if row.category !in fc then Err(KeyNotFound)
    else if !fc[row.category] then Ok(None)
    else
      match ValidateDay(row.dates, fd, today)
      case Err(e) => Err(e)
      case Ok(false) => Ok(None)
      case Ok(true) =>
        match RenderTime(row.dates.value)
        case Err(e) => Err(e)
        case Ok(time) => Ok(Some(EventOut(time, row.title, row.location, row.category, row.url)))
  }

  /**
    A row is kept exactly when its title contains the filter text, its
    category is in the filter and set, and its dates pass the date filter;
    the record carries the row's title, location, category and link. A row
    whose title matches but whose category the filter lacks raises
    KeyError; one whose category is set but that has no date raises.
  */
  lemma OutcomeSpec(fc: map<string, bool>, fd: DateFilter, filterTitle: string, today: Date, row: EventRow)
    ensures var r := Outcome(fc, fd, filterTitle, today, row);
      && (r.Ok? && r.value.Some? <==>
            Contains(row.title, filterTitle) && row.category in fc && fc[row.category]
            && ValidateDay(row.dates, fd, today) == Ok(true) && RenderTime(row.dates.value).Ok?)
      && (r.Ok? && r.value.Some? ==>
            r.value.value == EventOut(RenderTime(row.dates.value).value, row.title, row.location, row.category, row.url))
      && (Contains(row.title, filterTitle) && row.category !in fc ==> r == Err(KeyNotFound))
      && (Contains(row.title, filterTitle) && row.category in fc && fc[row.category] && row.dates.None?
          ==> r == Err(EventHasNoDate))
      && (!Contains(row.title, filterTitle) ==> r == Ok(None))
      && (Contains(row.title, filterTitle) && row.category in fc && !fc[row.category] ==> r == Ok(None))
      && (Contains(row.title, filterTitle) && row.category in fc && fc[row.category]
          && ValidateDay(row.dates, fd, today) == Ok(false)
          ==> r == Ok(None))
      && (Contains(row.title, filterTitle) && row.category in fc && fc[row.category]
          && ValidateDay(row.dates, fd, today).Err?
          ==> r == Err(ValidateDay(row.dates, fd, today).error))
  {
  }

  function Outcomes(fc: map<string, bool>, fd: DateFilter, filterTitle: string, today: Date, rows: seq<EventRow>): (r: seq<Result<Option<EventOut>>>)
    ensures |r| == |rows| && forall k :: 0 <= k < |rows| ==> r[k] == Outcome(fc, fd, filterTitle, today, rows[k])
  {
    seq(|rows|, k requires 0 <= k < |rows| => Outcome(fc, fd, filterTitle, today, rows[k]))
  }

  /** The result of `parse_events` on a stored table: the kept records in order, or the first error. */
  function SelectEvents(raw: RawEvents, fc: map<string, bool>, fd: DateFilter, filterTitle: string, today: Date): Result<seq<EventOut>> {
    match Collect(Outcomes(fc, fd, filterTitle, today, Rows(raw)))
    case Err(e) => Err(e)
    case Ok(os) => Ok(Somes(os))
  }

  /**
    `parse_events`' loop over the zipped columns: skip, raise, or append
    the record, row by row.
  */
  method FilterEvents(raw: RawEvents, fc: map<string, bool>, fd: DateFilter, filterTitle: string, today: Date)
    returns (r: Result<seq<EventOut>>)
    ensures r == SelectEvents(raw, fc, fd, filterTitle, today)
  {
    var rows := Rows(raw);
    ghost var xs := Outcomes(fc, fd, filterTitle, today, rows);
    ghost var os: seq<Option<EventOut>> := [];
    var results: seq<EventOut> := [];
    var i := 0;
    assert xs[..0] == [];
    while i < |rows|
      invariant 0 <= i <= |rows|
      invariant Collect(xs[..i]) == Ok(os)
      invariant results == Somes(os)
    {
      var o := Outcome(fc, fd, filterTitle, today, rows[i]);
      CollectStep(xs, i);
      if o.Err? {
        CollectPrefixError(xs, i + 1);
        return Err(o.error);
      }
      SomesSnoc(os, o.value);
      os := os + [o.value];
      if o.value.Some? {
        results := results + [o.value.value];
      }
      i := i + 1;
    }
    assert xs[..i] == xs;
    return Ok(results);
  }

  lemma SomesSnoc(os: seq<Option<EventOut>>, o: Option<EventOut>)
    ensures Somes(os + [o]) == Somes(os) + (if o.Some? then [o.value] else [])
  {
    assert (os + [o])[..|os|] == os;
  }

  /**
    `parse_events` returns exactly the rows that pass the filters, as
    records, in their original order: the j-th record comes from the j-th
    kept row, every record passed the title, category and date filters, and
    every other row was skipped rather than dropped silently. It raises
    exactly when some row raises, and then with the first such row's error.
  */
  /** A record that comes out of a row passed all three filters. */
  lemma OutcomeKept(fc: map<string, bool>, fd: DateFilter, filterTitle: string, today: Date, row: EventRow)
    requires Outcome(fc, fd, filterTitle, today, row).Ok? && Outcome(fc, fd, filterTitle, today, row).value.Some?
    ensures var o := Outcome(fc, fd, filterTitle, today, row).value.value;
      && Contains(o.title, filterTitle) && o.category in fc && fc[o.category]
      && ValidateDay(row.dates, fd, today) == Ok(true)
  {
  }

  lemma SelectEventsExact(raw: RawEvents, fc: map<string, bool>, fd: DateFilter, filterTitle: string, today: Date)
    ensures var rows := Rows(raw);
      var r := SelectEvents(raw, fc, fd, filterTitle, today);
      var os := Outcomes(fc, fd, filterTitle, today, rows);
      && (r.Err? <==> exists k :: 0 <= k < |rows| && Outcome(fc, fd, filterTitle, today, rows[k]).Err?)
      && (r.Err? ==> exists k :: 0 <= k < |rows| && Outcome(fc, fd, filterTitle, today, rows[k]) == Err(r.error)
                              && forall j :: 0 <= j < k ==> Outcome(fc, fd, filterTitle, today, rows[j]).Ok?)
      && (r.Ok? ==>
            var idx := SomeOffsets(Collect(os).value);
            && |r.value| == |idx|
            && (forall i, j :: 0 <= i < j < |idx| ==> idx[i] < idx[j])
            && (forall j :: 0 <= j < |idx| ==>
                  idx[j] < |rows| && Outcome(fc, fd, filterTitle, today, rows[idx[j]]) == Ok(Some(r.value[j]))
                  && Contains(r.value[j].title, filterTitle)
                  && r.value[j].category in fc && fc[r.value[j].category]
                  && ValidateDay(rows[idx[j]].dates, fd, today) == Ok(true))
            && (forall k :: 0 <= k < |rows| && k !in idx ==> Outcome(fc, fd, filterTitle, today, rows[k]) == Ok(None)))
  {
    var rows := Rows(raw);
    var os := Outcomes(fc, fd, filterTitle, today, rows);
    if Collect(os).Ok? {
      var vs := Collect(os).value;
      SomesSelection(vs);
      var idx := SomeOffsets(vs);
      var out := Somes(vs);
      forall j | 0 <= j < |idx|
        ensures Contains(out[j].title, filterTitle) && out[j].category in fc && fc[out[j].category]
        ensures ValidateDay(rows[idx[j]].dates, fd, today) == Ok(true)
      {
        OutcomeKept(fc, fd, filterTitle, today, rows[idx[j]]);
      }
    }
  }

  /** `get_next_event`: the first record of `parse_events`' result, None for an empty list. */
  function First(r: Result<seq<EventOut>>): (f: Result<Option<EventOut>>)
    ensures f.Err? <==> r.Err?
    ensures f.Err? ==> r == Err(f.error)
    ensures r.Ok? && |r.value| > 0 ==> f == Ok(Some(r.value[0]))
    ensures r.Ok? && |r.value| == 0 ==> f == Ok(None)
  {
    match r
    case Err(e) => Err(e)
    case Ok(es) => if |es| > 0 then Ok(Some(es[0])) else Ok(None)
  }

  /** The next event is the earliest kept row on the page, when there is one. */
  lemma FirstIsEarliestKept(raw: RawEvents, fc: map<string, bool>, fd: DateFilter, filterTitle: string, today: Date, k: nat)
    requires SelectEvents(raw, fc, fd, filterTitle, today).Ok?
    requires k < |Rows(raw)| && Outcome(fc, fd, filterTitle, today, Rows(raw)[k]).Ok?
    requires Outcome(fc, fd, filterTitle, today, Rows(raw)[k]).value.Some?
    requires forall j :: 0 <= j < k ==> Outcome(fc, fd, filterTitle, today, Rows(raw)[j]) == Ok(None)
    ensures First(SelectEvents(raw, fc, fd, filterTitle, today)) == Ok(Outcome(fc, fd, filterTitle, today, Rows(raw)[k]).value)
  {
    var xs := Outcomes(fc, fd, filterTitle, today, Rows(raw));
    var vs := Collect(xs).value;
    SomesHead(vs, k);
  }
}
