/**
  The `SiouxParser` object (SiouxParser.py:14-367): a session flag and two
  lazily filled caches, `__RAW_EVENTS` and `__RAW_BDAYS`. Each is filled by
  the first `parse_events` / `parse_birthdays` call that finds it empty and
  then reused unchanged by every later call.

  The configuration file becomes a `Config` value and the two intranet
  pages a `Site` value: what the session would download and BeautifulSoup
  would select. `today` stands for `datetime.now().date()`.
*/
module Parser {
  import opened Base
  import opened Dates
  import opened DateFiltering
  import opened Birthdays
  import opened Events

  /**
    The configuration values the parser reads: the events link prefix
    (URLS/EVENTS_EXT), the five category names (EVENTS section) and the
    birthday titles with the nl_BE and en_US month tables. The nl_BE table
    is also the one `%b` uses for event dates, since the constructor sets
    that locale.
  */
  datatype Config = Config(eventsBase: string, categories: CategoryNames, birthdays: BdayConfig)

  /** The events overview page and the birthday page, as the session would serve them. */
  datatype Site = Site(events: EventsPage, birthdays: BdayPage)

  class SiouxParser {
    const config: Config
    const site: Site
    /** `self.__session is not None`. */
    var authenticated: bool
    /** `__RAW_EVENTS`: None until `__get_events` succeeds. */
    var rawEvents: Option<RawEvents>
    /** `__RAW_BDAYS`: None until `__get_recent_birthdays` succeeds. */
    var rawBdays: Option<RawBirthdays>

    /** A fresh parser has no session and empty caches. */
    constructor (config: Config, site: Site)
      ensures this.config == config && this.site == site
      ensures !authenticated && rawEvents == None && rawBdays == None
    {
      this.config := config;
      this.site := site;
      authenticated := false;
      rawEvents := None;
      rawBdays := None;
    }

    /** `authenticate`: opens the session; the caches are left as they are. */
    method Authenticate()
      modifies this
      ensures authenticated
      ensures rawEvents == old(rawEvents) && rawBdays == old(rawBdays)
    {
      authenticated := true;
    }

    /** What `__get_events` computes with or without a session. */
    function FetchEvents(auth: bool): Result<RawEvents> {
      if !auth then Err(NotAuthenticated)
      else EventsTable(config.birthdays.dutch, config.eventsBase, site.events)
    }

    /** What `__get_recent_birthdays` computes with or without a session. */
    function FetchBirthdays(auth: bool, today: Date): Result<RawBirthdays> {
      if !auth then Err(NotAuthenticated)
      else BirthdaysTable(config.birthdays, site.birthdays, today)
    }

    /**
      `__get_events`: without a session it raises RuntimeError; otherwise it
      stores the table, unless building it raises, which leaves the cache
      as it was.
    */
    method GetEvents() returns (err: Option<Error>)
      modifies this
      ensures authenticated == old(authenticated) && rawBdays == old(rawBdays)
      ensures !authenticated ==> err == Some(NotAuthenticated)
      ensures FetchEvents(authenticated).Ok? ==> err == None && rawEvents == Some(FetchEvents(authenticated).value)
      ensures FetchEvents(authenticated).Err? ==> err == Some(FetchEvents(authenticated).error) && rawEvents == old(rawEvents)
    {
      if !authenticated {
        return Some(NotAuthenticated);
      }
      var table := ExtractEvents(config.birthdays.dutch, config.eventsBase, site.events);
      if table.Err? {
        return Some(table.error);
      }
      rawEvents := Some(table.value);
      return None;
    }

    /**
      `__get_recent_birthdays`: without a session it raises RuntimeError;
      otherwise it stores the table, unless building it raises.
    */
    method GetRecentBirthdays(today: Date) returns (err: Option<Error>)
      modifies this
      ensures authenticated == old(authenticated) && rawEvents == old(rawEvents)
      ensures !authenticated ==> err == Some(NotAuthenticated)
      ensures FetchBirthdays(authenticated, today).Ok? ==>
        err == None && rawBdays == Some(FetchBirthdays(authenticated, today).value)
      ensures FetchBirthdays(authenticated, today).Err? ==>
        err == Some(FetchBirthdays(authenticated, today).error) && rawBdays == old(rawBdays)
    {
      if !authenticated {
        return Some(NotAuthenticated);
      }
      var table := CollectBirthdays(config.birthdays, site.birthdays, today);
      if table.Err? {
        return Some(table.error);
      }
      rawBdays := Some(table.value);
      return None;
    }

    /**
      `parse_events`: fills the event cache if it is empty, then filters the
      cached table. A filled cache is reused unchanged; when filling fails
      the cache stays empty and the error is raised.
    */
    method ParseEvents(fc: map<string, bool>, fd: DateFilter, filterTitle: string, today: Date)
      returns (r: Result<seq<EventOut>>)
      modifies this
      ensures authenticated == old(authenticated) && rawBdays == old(rawBdays)
      ensures old(rawEvents).Some? ==> rawEvents == old(rawEvents)
      ensures old(rawEvents).None? ==>
        rawEvents == if FetchEvents(authenticated).Ok? then Some(FetchEvents(authenticated).value) else None
      ensures rawEvents.Some? ==> r == SelectEvents(rawEvents.value, fc, fd, filterTitle, today)
      ensures rawEvents.None? ==> FetchEvents(authenticated).Err? && r == Err(FetchEvents(authenticated).error)
    {
      if rawEvents.None? {
        var err := GetEvents();
        if err.Some? {
          return Err(err.value);
        }
      }
      r := FilterEvents(rawEvents.value, fc, fd, filterTitle, today);
    }

    /**
      `get_next_event`: the first record `parse_events` returns, None when
      it returns none; the cache behaves as in `parse_events`.
    */
    method GetNextEvent(fc: map<string, bool>, fd: DateFilter, filterTitle: string, today: Date)
      returns (r: Result<Option<EventOut>>)
      modifies this
      ensures authenticated == old(authenticated) && rawBdays == old(rawBdays)
      ensures old(rawEvents).Some? ==> rawEvents == old(rawEvents)
      ensures old(rawEvents).None? ==>
        rawEvents == if FetchEvents(authenticated).Ok? then Some(FetchEvents(authenticated).value) else None
      ensures rawEvents.Some? ==> r == First(SelectEvents(rawEvents.value, fc, fd, filterTitle, today))
      ensures rawEvents.None? ==> FetchEvents(authenticated).Err? && r == Err(FetchEvents(authenticated).error)
    {
      var events := ParseEvents(fc, fd, filterTitle, today);
      r := First(events);
    }

    /**
      `parse_birthdays`: fills the birthday cache if it is empty, then keeps
      the cached rows whose section is in the filter. A filled cache is
      reused unchanged, so the dates stay those of the day it was filled.
    */
    method ParseBirthdays(filter: seq<RelTime>, today: Date) returns (r: Result<seq<BirthdayOut>>)
      modifies this
      ensures authenticated == old(authenticated) && rawEvents == old(rawEvents)
      ensures old(rawBdays).Some? ==> rawBdays == old(rawBdays)
      ensures old(rawBdays).None? ==>
        rawBdays == if FetchBirthdays(authenticated, today).Ok? then Some(FetchBirthdays(authenticated, today).value) else None
      ensures rawBdays.Some? ==> r == Ok(SelectBirthdays(rawBdays.value, filter))
      ensures rawBdays.None? ==>
        FetchBirthdays(authenticated, today).Err? && r == Err(FetchBirthdays(authenticated, today).error)
    {
      if rawBdays.None? {
        var err := GetRecentBirthdays(today);
        if err.Some? {
          return Err(err.value);
        }
      }
      var out := FilterBirthdays(rawBdays.value, filter);
      return Ok(out);
    }
  }

  /**
    The cache in use: after a successful `parse_events`, a second call with
    any filters and any date reads the same stored table.
  */
  method SecondParseReusesTable(p: SiouxParser, fc1: map<string, bool>, fd1: DateFilter, t1: string, today1: Date,
                                fc2: map<string, bool>, fd2: DateFilter, t2: string, today2: Date)
    returns (r1: Result<seq<EventOut>>, r2: Result<seq<EventOut>>)
    modifies p
    ensures r1.Ok? ==> p.rawEvents.Some? && r2 == SelectEvents(p.rawEvents.value, fc2, fd2, t2, today2)
    ensures r1.Ok? ==> r1 == SelectEvents(p.rawEvents.value, fc1, fd1, t1, today1)
  {
    r1 := p.ParseEvents(fc1, fd1, t1, today1);
    r2 := p.ParseEvents(fc2, fd2, t2, today2);
  }
}
