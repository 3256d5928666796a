# SiouxBelgiumParser core in Dafny

This project models the `SiouxParser` class of SiouxBelgiumParser. The class scrapes the Sioux Belgium intranet and offers two pipelines:

- **Events.** The events overview page is split into five parallel columns: dates, titles, locations, categories and links. `parse_events` then keeps the events that pass a title-substring filter, a category filter and a date filter, and renders them as records.
- **Birthdays.** Each entry of the birthday page is put in the today, future or past section by where its text first occurs relative to the three section titles. The entry's name, role and date are read from its text and markup. `parse_birthdays` keeps the sections the caller asks for.

Both raw tables are fetched lazily and cached in the object. The first `parse_*` call fills a cache; every later call reuses it unchanged.

The model is split into modules:

| module | file | what it models |
|---|---|---|
| `Base` | base.dfy | Python exceptions as `Result`, a loop that stops at the first raise (`Collect`), list filtering (`Somes`) |
| `Dates` | dates.dfy | `datetime.date`: validity, ordering, `strftime('%d/%m/%Y')` and its inverse |
| `Text` | text.dfy | `__prettify_string`, `str.find`, `in` on strings |
| `DateExtractor` | date_extractor.dfy | `__parse_event_date`: `re.findall` of the event date pattern and `strptime("%d %b '%y")`; the two birthday formats `"%d %b"` and `"%b %d"` |
| `DateFiltering` | date_filter.dfy | `filter_events_date` and `__validate_day` |
| `Birthdays` | birthdays.dfy | `__get_recent_birthdays`, `filter_bday`, `parse_birthdays`, and the date-column defect (see Findings) |
| `Events` | events.dfy | `__get_events`, `filter_events_category`, `parse_events`, `get_next_event`'s choice |
| `Parser` | parser.dfy | the `SiouxParser` object: session flag, the two caches, the public methods |

The loops of the source are methods with loop invariants. `ExtractEvents`, `CollectBirthdays`, `FilterEvents` and `FilterBirthdays` are each proved equal to a specification function over the inputs, and lemmas then prove what the source promises about those functions. `FilterBday` builds its list with three conditional appends; its contract states which sections the list holds and that they come in the order today, future, past. The object is a class whose fields are the session flag and the two caches. Its methods state the new cache contents and the result.

Python exceptions become `Err` values of one `Error` datatype:

- `RuntimeError` is `NotAuthenticated`, `EventHasNoDate` or `BirthdaySectionFailed`.
- `ValueError` from strptime is `DateFormatMismatch`.
- `IndexError` is `IndexOutOfRange` and `KeyError` is `KeyNotFound`.
- `TypeError` on a missing link is `MissingLink`.
- The two errors of the birthday-date defect are `AttributeMissing` and `NotIterable`.

Points where the code behaves differently from what its structure suggests, and the model follows the code:

- Event dates are a list of any length, not a (start, end) pair. Only the first two dates decide "multi-day", and `days[-1]` is the end date.
- The four node lists of the events page are zipped, so mismatched lengths are truncated to the shortest list. Nothing fails for a mismatch.
- Relative time uses the three chained strict comparisons of the source. It does not use half-open ranges, and a missing title (offset -1) does not by itself raise.
- The category filter is an ordinary dict. A category missing from it raises `KeyError` at lookup time, and only for events whose title matched.
- `__validate_day` as written never reaches its four inclusion steps on a non-empty list. Once no exclusion fires, the arity inclusion always accepts. The model keeps all nine steps, and `DateFiltering.ValidateDay`'s contract states the resulting rule.
- The locale switch around the English birthday format is not exception-safe in the source. The model passes both month tables explicitly (see Left out).

## Model

| member | source | states |
|---|---|---|
| Text.Prettify | SiouxParser.py:60-67 | the result holds no newline or tab, starts and ends with non-whitespace, and holds every other character of the stripped input exactly as often as the stripped input does |
| Text.PrettifyIdempotent | SiouxParser.py:60-67 | prettifying a prettified string changes nothing |
| Text.Find | SiouxParser.py:138-140 | `str.find`: -1 exactly when the substring does not occur, otherwise the lowest offset where it occurs |
| Dates.FormatRoundTrip | SiouxParser.py:340-342 | `strftime('%d/%m/%Y')` of a valid date is 10 characters and reads back as the same date |
| Dates.FormatInjective | SiouxParser.py:365 | two different valid dates never print the same |
| Dates.ValidIn1900IsValidEveryYear | SiouxParser.py:165 | a day and month strptime accepts in 1900 are valid in every year |
| Dates.Trichotomy | SiouxParser.py:199-206 | the date comparisons used by the filter form a strict total order: exactly one of a < b, a == b, b < a holds, and < is transitive |
| DateExtractor.MonthNumber | SiouxParser.py:79 | `%b`: the first month whose name equals the word ignoring case, or none when no name does |
| DateExtractor.CenturyOf | SiouxParser.py:79 | `%y`: two digits 69-99 give 1969-1999 and 00-68 give 2000-2068 |
| DateExtractor.MatchAtSound | SiouxParser.py:77 | a match found at an offset is a word of the pattern `\d\d +[a-z]+ '\d\d`, with its day, month and year fields |
| DateExtractor.MatchAtComplete | SiouxParser.py:77 | every word of the pattern at an offset is the match found there |
| DateExtractor.FindAllFromMatches | SiouxParser.py:77 | every token `re.findall` reports is the match at its own start |
| DateExtractor.FindAllFromOrdered | SiouxParser.py:77 | `re.findall`'s tokens come left to right and do not overlap |
| DateExtractor.FindAllFromComplete | SiouxParser.py:77 | no offset outside the reported tokens starts a match |
| DateExtractor.TokenDate | SiouxParser.py:79 | a token is accepted exactly when its month name is in the table and its day, that month and the `%y` year form a valid date; the date then has the token's day digits, its month and the `%y` year (1969-2068); otherwise ValueError |
| DateExtractor.ParseEventDate | SiouxParser.py:69-81 | None exactly when no token occurs; otherwise one date per token in order, and ValueError exactly when some token fails strptime |
| DateExtractor.ParseEventDateExample | SiouxParser.py:69-81 | "Event on 14 jan '24 to 16 jan '24" yields 14 and 16 January 2024 |
| DateExtractor.DayField | SiouxParser.py:165 | `%d` accepts one or two digits with value 1-31 |
| DateExtractor.DayMonthIn | SiouxParser.py:165 | the date exists in 1900 (strptime's default year) and in the target year, or ValueError |
| DateExtractor.ParseDayMonthShape | SiouxParser.py:165 | `"%d %b"`: an accepted text is a day field, a run of blanks, then a whole month name, and the date has that day and month |
| DateExtractor.ParseDayMonthAccepts | SiouxParser.py:165 | `"%d %b"` then `.replace(year=...)`: every text of that shape gives its day and month in the given year, or ValueError when that date does not exist in 1900 or in that year |
| DateExtractor.ParseMonthDayShape | SiouxParser.py:168 | `"%b %d"`: an accepted text is a whole month name, a run of blanks, then a day field, and the date has that month and day |
| DateExtractor.ParseMonthDayAccepts | SiouxParser.py:168 | `"%b %d"` then `.replace(year=...)`: every text of that shape gives its month and day in the given year, or ValueError when that date does not exist in 1900 or in that year |
| DateExtractor.ParseBirthdayDate | SiouxParser.py:163-169 | an empty date text raises IndexError; a parsed date is valid and in the given year; a text starting with a digit was read as Dutch `"%d %b"` and any other as English `"%b %d"`, with day and month from that split |
| DateExtractor.ParseBirthdayDateAccepts | SiouxParser.py:163-169 | a text starting with a digit and of the `"%d %b"` shape is read with the Dutch months, any other text of the `"%b %d"` shape with the English ones, each giving its day and month in the given year |
| DateFiltering.FilterEventsDate | SiouxParser.py:287-298 | each of the five filter keys holds the argument of the same name |
| DateFiltering.ValidateDay | SiouxParser.py:177-220 | no dates raises; a non-empty list passes exactly when none of the four hard exclusions applies; an empty list is rejected, accepted or raises IndexError by the flags as the code orders them |
| DateFiltering.AllFlagsAccept | SiouxParser.py:287-298 | with every flag set, every non-empty date list passes |
| DateFiltering.NoFlagsReject | SiouxParser.py:287-298 | with no flag set, every date list is rejected |
| DateFiltering.TodayExclusionWins | SiouxParser.py:205-209 | without the today flag, dates spanning today are rejected whatever the arity flags say |
| DateFiltering.EqualPairIsOneDay | SiouxParser.py:190-194 | two equal dates are treated exactly like one date |
| DateFiltering.SpanningTodayExample | SiouxParser.py:196-209 | 1-3 May seen on 2 May with only the multi-day flag is rejected |
| DateFiltering.FutureOneDayExample | SiouxParser.py:196-209 | 10 May seen on 1 May with the one-day and future flags passes |
| Birthdays.Classify | SiouxParser.py:147-154 | today, future and past are each chosen exactly when their chained comparison is the first that holds; otherwise RuntimeError |
| Birthdays.OrderedSections | SiouxParser.py:147-154 | with the titles in page order, an entry is in the section whose title most closely precedes it, and fails exactly on or before the first title or on a title's offset |
| Birthdays.MissingFutureTitle | SiouxParser.py:147-148 | with the future title absent, no entry is put in today's section |
| Birthdays.ClassifyExample | SiouxParser.py:147-154 | titles at 0, 50 and 120 put an entry at offset 80 in the future section |
| Birthdays.NameFromMatch | SiouxParser.py:156 | `re.findall("(.+) \(", text)[0]`: the group of the match at the leftmost offset where the pattern matches, running to the last " (" on that line; none when the pattern matches nowhere |
| Birthdays.ParenFromMatch | SiouxParser.py:163 | `re.findall("\(.+\)", text)[0]`: from the leftmost "(" where the pattern matches through the last ")" on that line; none when the pattern matches nowhere |
| Birthdays.Role | SiouxParser.py:157 | the role is the first class; KeyError without a class attribute and IndexError on an empty one |
| Birthdays.EntryDate | SiouxParser.py:162-169 | a date read from the parentheses is valid and in the current year; a text with no parenthesised part raises IndexError |
| Birthdays.EntryDateOfFields | SiouxParser.py:162-169 | for `name (date)` on one line, the birthday is the date text read in the day-month or month-day format |
| Birthdays.EntryFields | SiouxParser.py:156-163 | for `name (date)` on one line, the name and the date text are read back exactly |
| Birthdays.NameOfEntry | SiouxParser.py:156 | the greedy name regex stops at the only " (" |
| Birthdays.ParenOfEntry | SiouxParser.py:163 | the parenthesis regex takes "(" through the closing ")" |
| Birthdays.RemoveAround | SiouxParser.py:163 | removing the parentheses of "(date)" gives the date text |
| Birthdays.EntryRowSpec | SiouxParser.py:146-173 | (line 160 corrected, see Findings) a recorded entry carries its section, name, role, and today's date or the date in its parentheses; an entry in no section raises RuntimeError, one without a name raises IndexError, a role or date error is raised as it is; an entry whose section, name, role and (outside today) date all succeed is recorded |
| Birthdays.CollectBirthdays | SiouxParser.py:124-175 | (line 160 corrected, see Findings) the loop's table is the specification table, and its four columns have one entry per birthday entry |
| Birthdays.Rows | SiouxParser.py:363 | zip has the length of the shortest column, and row k holds the k-th value of each column |
| Birthdays.ColumnsOfZip | SiouxParser.py:363 | unzipping the zip of equally long columns gives the columns back |
| Birthdays.ZipColumns | SiouxParser.py:363 | zipping the columns of a list of rows gives the rows back |
| Birthdays.FilterBday | SiouxParser.py:300-318 | a section is in the filter exactly when its flag is set, in the order today, future, past |
| Birthdays.FilterBirthdays | SiouxParser.py:349-367 | the loop returns the specification's records |
| Birthdays.SelectBirthdaysExact | SiouxParser.py:363-366 | the records are exactly the rows whose section is in the filter, in row order, with the date printed dd/mm/yyyy |
| Birthdays.FullFilterKeepsAll | SiouxParser.py:363-366 | a filter with all three sections keeps every row, in order |
| Birthdays.EmptyFilterKeepsNone | SiouxParser.py:363-366 | an empty filter keeps nothing |
| Birthdays.OverwrittenStays | SiouxParser.py:159-170 | once the Date column has been replaced by a date, it stays a date or the loop raises |
| Birthdays.TodayOverwrites | SiouxParser.py:159-160 | a today entry anywhere leaves the Date column a date or makes the loop raise |
| Birthdays.NoRowErrorFromColumn | SiouxParser.py:159-170 | when no entry raises, the only error of the as-written column is the append on a date |
| Birthdays.TodayBreaksParseBirthdays | SiouxParser.py:159-160 | with a today entry on an otherwise parseable page, the source raises while the corrected table exists |
| Events.FilterEventsCategory | SiouxParser.py:267-285 | the keys are exactly the five category names, and each name maps to its flag unless a later name repeats it |
| Events.EventsTableRows | SiouxParser.py:93-122 | five columns as long as the shortest node list; row k holds the parsed k-th date, the prettified title, location and category, and the link prefix joined to the title's href |
| Events.EventsTableFailure | SiouxParser.py:93-122 | ValueError when any date node fails to parse; otherwise TypeError (`MissingLink`) exactly when a zipped title has no link; no other error |
| Events.ExtractEvents | SiouxParser.py:93-122 | the zip loop's table is the specification table |
| Events.Rows | SiouxParser.py:336 | zip has the length of the shortest column, and row k holds the k-th value of each column |
| Events.ZipColumns | SiouxParser.py:336 | zipping the columns of a list of rows gives the rows back |
| Events.RenderTimeReadsBack | SiouxParser.py:339-344 | one date, or an equal pair, renders as "dd/mm/yyyy" that reads back as the date; two different dates render as "dd/mm/yyyy - dd/mm/yyyy" that reads back as both |
| Events.OutcomeSpec | SiouxParser.py:337-346 | a row is kept exactly when its title contains the filter text, its category is in the filter and set, and its dates pass; it is skipped when the title does not match, the category is unset or the dates fail; a matching title with an unknown category raises KeyError, and an error of the date check is raised as it is |
| Events.FilterEvents | SiouxParser.py:329-347 | the loop returns the specification's records or its first error |
| Events.SelectEventsExact | SiouxParser.py:336-347 | the records are exactly the kept rows, in order, each of which passed all three filters; the loop raises exactly when some row raises, with the first such row's error |
| Events.First | SiouxParser.py:264-265 | the first record, none for an empty list, and parsing's own error exactly when parsing raised |
| Events.FirstIsEarliestKept | SiouxParser.py:255-265 | the next event is the earliest row that `parse_events` keeps |
| Parser.SiouxParser.constructor | SiouxParser.py:14-16 | a new parser has no session and empty caches |
| Parser.SiouxParser.Authenticate | SiouxParser.py:222-237 | opens the session and leaves the caches alone |
| Parser.SiouxParser.GetEvents | SiouxParser.py:93-122 | without a session RuntimeError; otherwise the events table is stored, or its error is raised and the cache is unchanged |
| Parser.SiouxParser.GetRecentBirthdays | SiouxParser.py:124-175 | (line 160 corrected, see Findings) without a session RuntimeError; otherwise the birthday table is stored, or its error is raised and the cache is unchanged |
| Parser.SiouxParser.ParseEvents | SiouxParser.py:320-347 | a filled cache is reused unchanged; an empty one is filled if the fetch succeeds; the result filters the cached table, or is the fetch error |
| Parser.SiouxParser.GetNextEvent | SiouxParser.py:255-265 | the cache behaves as in `parse_events`, and the result is the first record `parse_events` returns |
| Parser.SiouxParser.ParseBirthdays | SiouxParser.py:349-367 | (line 160 corrected, see Findings) a filled cache is reused unchanged; an empty one is filled if the fetch succeeds; the result filters the cached table, or is the fetch error |
| Parser.SecondParseReusesTable | SiouxParser.py:331-334 | after a successful `parse_events`, a second call with any filters and any date filters the same stored table |

## Left out

- HTTP, NTLM and `.netrc`: the session is a flag. `Parser.SiouxParser.Authenticate` always succeeds, and a missing `.netrc` entry is not modelled. What the session downloads is the `Site` value given to the constructor.
- BeautifulSoup: each page is given as the node lists its selectors would return, already reduced to text, links and class lists. The `test_content` hook of `__get_recent_birthdays` exists only to replace the downloaded text, so it is not modelled.
- The configuration file and `__init__`'s missing-file RuntimeError: configuration is a `Config` value. `get_base_url` and `get_events_overview_url` only return configuration strings.
- Process locale: month names come from explicit nl_BE and en_US tables. The source leaves the locale at en_US when the English strptime raises, and this would change later `%b` lookups. The model does not capture that.
- `datetime.now()`: `today` is one parameter per call. `__get_recent_birthdays` reads the clock again for each entry (SiouxParser.py:160, 165 and 168), and `__validate_day` reads it once per event row during one `parse_events` call (SiouxParser.py:188), so a run across midnight could mix two dates; the model uses one `today` throughout.
- Python's Unicode `str.isdigit`, `\d` and `str.lower` beyond ASCII: digits and case folding are ASCII only.
- `strftime` raises ValueError for years before 1900. Dates parsed by the model lie in 1969-2068 or in the current year, so this case is not modelled.
- DateFiltering.ValidateDay: the filter is a record with all five flags. A dict that lacks one of the keys, which would raise KeyError, is not modelled.
- Entries with repeated text: an entry's offset is the first occurrence of its text anywhere in the page. An entry whose text also appears earlier is classified by that earlier offset. The model keeps this behaviour of the source.
- Parser.SiouxParser.GetRecentBirthdays: the class stores the corrected birthday table of the Findings row, where a today entry appends today's date. As written, line 160 replaces the whole Date list, so any page with a today entry raises (`Birthdays.TodayBreaksParseBirthdays`); `ParseBirthdays` inherits the corrected table.
- The `__main__` block (printing), the BitBar plugin and the tools: they only call the public methods and print the records.

## Findings

| source | as written | input that shows it | evidently intended | confidence | as-written member | corrected member |
|---|---|---|---|---|---|---|
| SiouxParser.py:159-160 | for an entry in today's section, `dict_bday['Date'] = datetime.now().date()` replaces the whole Date list by one date | a birthday page whose entries all parse and one of which lies between the today and future titles: the next non-today entry's `append` raises AttributeError, and if none follows, `parse_birthdays`' zip raises TypeError | append today's date to the Date list, so the four columns stay in step | high (not executed) | Birthdays.TodayBreaksParseBirthdays | Birthdays.CollectBirthdays |
