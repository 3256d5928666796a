/**
  The birthday side of the parser: `__get_recent_birthdays`
  (SiouxParser.py:124-175) turns the entries of the birthday page into four
  parallel columns, `filter_bday` (SiouxParser.py:300-318) builds the list
  of wanted sections and `parse_birthdays` (SiouxParser.py:349-367) keeps
  the entries of those sections.

  The page is given as its text and the nodes BeautifulSoup would find:
  one list of entries per node matching the overall birthday selector.
*/
module Birthdays {
  import opened Base
  import opened Dates
  import opened Text
  import opened DateExtractor

  /** The three page sections an entry can lie in. */
  datatype RelTime = Today | Future | Past

  /** One entry node: its text and its `class` attribute (None when absent). */
  datatype BdayEntry = BdayEntry(text: string, classes: Option<seq<string>>)

  /** The birthday page: its raw text and, per overall-selector match, its entry nodes. */
  datatype BdayPage = BdayPage(text: string, sections: seq<seq<BdayEntry>>)

  /**
    What the configuration supplies: the three section titles searched for in
    the page, and the month tables of the two locales strptime switches
    between (nl_BE for "16 nov", en_US for "Nov 16").
  */
  datatype BdayConfig = BdayConfig(titleToday: string, titleFuture: string, titlePast: string,
                                   dutch: MonthNames, english: MonthNames)

  /** `str.find` offsets of the three section titles in the page text, -1 when absent. */
  datatype Headers = Headers(today: int, future: int, past: int)

  /** One entry once parsed. */
  datatype BdayRow = BdayRow(name: string, date: Date, role: string, relTime: RelTime)

  /** `dict_bday`: four parallel columns. */
  datatype RawBirthdays = RawBirthdays(names: seq<string>, dates: seq<Date>, roles: seq<string>, relTimes: seq<RelTime>)

  /** One record returned by `parse_birthdays`: the date printed as dd/mm/yyyy. */
  datatype BirthdayOut = BirthdayOut(name: string, date: string, role: string)

  function HeadersOf(cfg: BdayConfig, text: string): Headers {
    Headers(Find(text, cfg.titleToday), Find(text, cfg.titleFuture), Find(text, cfg.titlePast))
  }

  // ---- relative time (SiouxParser.py:147-154) ----------------------------------

  /**
    The section of an entry found at offset `pos`: the first of the three
    chained strict comparisons that holds, an error when none does.
  */
  function Classify(h: Headers, pos: int): (r: Result<RelTime>)
    ensures r == Ok(Today) <==> h.today < pos < h.future
    ensures r == Ok(Future) <==> !(h.today < pos < h.future) && h.future < pos < h.past
    ensures r == Ok(Past) <==> !(h.today < pos < h.future) && !(h.future < pos < h.past) && h.past < pos
    ensures r.Err? <==> !(h.today < pos < h.future) && !(h.future < pos < h.past) && pos <= h.past
    ensures r.Err? ==> r.error == BirthdaySectionFailed
  {
    if h.today < pos < h.future then Ok(Today)
    else if h.future < pos < h.past then Ok(Future)
    else if h.past < pos then Ok(Past)
    else Err(BirthdaySectionFailed)
  }

  /**
    When the titles appear in page order, the first-match order does not
    matter: an entry belongs to the section whose title precedes it most
    closely, and it fails exactly when it sits on or before the first
    title or on another title's offset.
  */
  lemma OrderedSections(h: Headers, pos: int)
    requires h.today < h.future < h.past
    ensures Classify(h, pos) == Ok(Future) <==> h.future < pos < h.past
    ensures Classify(h, pos) == Ok(Past) <==> h.past < pos
    ensures Classify(h, pos).Err? <==> pos <= h.today || pos == h.future || pos == h.past
  {
  }

  /** Titles at offsets 0, 50 and 120: an entry found at offset 80 is in the future section. */
  lemma ClassifyExample()
    ensures Classify(Headers(0, 50, 120), 80) == Ok(Future)
  {
  }

  /** When the future title is missing from the page, no entry is classified as today's. */
  lemma MissingFutureTitle(h: Headers, pos: int)
    requires h.future == -1 && pos >= -1
    ensures Classify(h, pos) != Ok(Today)
  {
  }

  // ---- regular expressions over the entry text ---------------------------------

  /** Where `.` stops matching from offset `i`: the first newline at or after `i`, or the end. */
  function LineEnd(s: string, i: nat): (e: nat)
    requires i <= |s|
    ensures i <= e <= |s|
    ensures forall k :: i <= k < e ==> s[k] != '\n'
    ensures e < |s| ==> s[e] == '\n'
    decreases |s| - i
  {
    if i == |s| || s[i] == '\n' then i else LineEnd(s, i + 1)
  }

  /** A line that has no newline before `m` ends at `m` or later. */
  lemma {:induction false} LineEndBeyond(s: string, i: nat, m: nat)
    requires i <= m <= |s|
    requires forall k :: i <= k < m ==> s[k] != '\n'
    ensures m <= LineEnd(s, i)
    decreases |s| - i
  {
    if i < m {
      LineEndBeyond(s, i + 1, m);
    }
  }

  /**
    The last offset `j >= lo` with `p` at `j` and ending by `e`: where a
    greedy `.+` backs off to when `p` follows it.
  */
  function LastAt(s: string, p: string, lo: nat, e: nat): (r: Option<nat>)
    requires e <= |s|
    ensures r.Some? ==> lo <= r.value && r.value + |p| <= e && OccursAt(s, p, r.value)
    ensures r.Some? ==> forall k :: r.value < k && k + |p| <= e ==> !OccursAt(s, p, k)
    ensures r.None? ==> forall k :: lo <= k && k + |p| <= e ==> !OccursAt(s, p, k)
    decreases e
  {
    if e < lo + |p| then None
    else if OccursAt(s, p, e - |p|) then Some(e - |p|)
    else LastAt(s, p, lo, e - 1)
  }

  /**
    `re.findall("(.+) \(", s)[0]` with the search starting at `i`: the
    leftmost start whose line holds a " (" after at least one character,
    and the text up to the last such " (" on that line.
  */
  function NameFrom(s: string, i: nat): (r: Option<string>)
    requires i <= |s|
    ensures r.Some? ==> |r.value| > 0 && '\n' !in r.value
    decreases |s| - i
  {
    if i == |s| then None
    else
      match LastAt(s, " (", i + 1, LineEnd(s, i))
      case Some(j) => Some(s[i..j])
      case None => NameFrom(s, i + 1)
  }

  /**
    `re.findall("\(.+\)", s)[0]` with the search starting at `i`: the
    leftmost "(" followed on its line by at least one character and a ")",
    through the last ")" on that line.
  */
  function ParenFrom(s: string, i: nat): (r: Option<string>)
    requires i <= |s|
    ensures r.Some? ==> |r.value| >= 3 && r.value[0] == '(' && r.value[|r.value| - 1] == ')'
    ensures r.Some? ==> '\n' !in r.value
    decreases |s| - i
  {
    if i == |s| then None
    else if s[i] == '(' then
      match LastAt(s, ")", i + 2, LineEnd(s, i + 1))
      case Some(k) =>
        assert s[k] == s[k..k + 1][0] == ')';
        Some(s[i..k + 1])
      case None => ParenFrom(s, i + 1)
    else ParenFrom(s, i + 1)
  }

  /**
    `(.+) \(` can match from `a` with its group ending at `b`: at least one
    character, none of them a newline, then " (".
  */
  predicate NameSpan(s: string, a: int, b: int) {
    0 <= a < b && OccursAt(s, " (", b) && forall k :: a <= k < b ==> s[k] != '\n'
  }

  /**
    `\(.+\)` can match from `a` through `c`: a "(", at least one character
    other than a newline, then ")".
  */
  predicate ParenSpan(s: string, a: int, c: int) {
    0 <= a && a + 2 <= c < |s| && s[a] == '(' && s[c] == ')' && forall k :: a < k < c ==> s[k] != '\n'
  }

  /**
    `r` is what `re.findall(..)[0]` of the name pattern gives when the search
    starts at `i`: the match from the leftmost offset at which the pattern
    matches at all, its group running to the last " (" it can reach from
    there; None when it matches nowhere.
  */
  ghost predicate IsNameMatch(s: string, i: int, r: Option<string>) {
    && (r.None? ==> forall a, b :: i <= a ==> !NameSpan(s, a, b))
    && (r.Some? ==>
          exists a, b :: i <= a && NameSpan(s, a, b) && r.value == s[a..b]
                         && (forall a', b' :: i <= a' < a ==> !NameSpan(s, a', b'))
                         && (forall b' :: b < b' ==> !NameSpan(s, a, b')))
  }

  /** The name search finds `re.findall`'s first match. */
  lemma {:induction false} NameFromMatch(s: string, i: nat)
    requires i <= |s|
    ensures IsNameMatch(s, i, NameFrom(s, i))
    decreases |s| - i
  {
    if i < |s| {
      NameSpansAt(s, i);
      if LastAt(s, " (", i + 1, LineEnd(s, i)).None? {
        NameFromMatch(s, i + 1);
        NameMatchFromNext(s, i, NameFrom(s, i));
      } else {
        var b := LastAt(s, " (", i + 1, LineEnd(s, i)).value;
        assert NameSpan(s, i, b) && NameFrom(s, i).value == s[i..b];
      }
    }
  }

  /** Where the pattern cannot match at `i`, the first match from `i` is the first one from `i + 1`. */
  lemma NameMatchFromNext(s: string, i: int, r: Option<string>)
    requires IsNameMatch(s, i + 1, r) && forall b :: !NameSpan(s, i, b)
    ensures IsNameMatch(s, i, r)
  {
    if r.Some? {
      var a, b :| i + 1 <= a && NameSpan(s, a, b) && r.value == s[a..b]
                  && (forall a', b' :: i + 1 <= a' < a ==> !NameSpan(s, a', b'))
                  && (forall b' :: b < b' ==> !NameSpan(s, a, b'));
      assert forall a', b' :: i <= a' < a ==> !NameSpan(s, a', b');
    }
  }

  /** From offset `i` the name pattern reaches exactly the " (" that LastAt finds on `i`'s line. */
  lemma NameSpansAt(s: string, i: nat)
    requires i < |s|
    ensures LastAt(s, " (", i + 1, LineEnd(s, i)).None? ==> forall b :: !NameSpan(s, i, b)
    ensures LastAt(s, " (", i + 1, LineEnd(s, i)).Some? ==>
      var b := LastAt(s, " (", i + 1, LineEnd(s, i)).value;
      NameSpan(s, i, b) && forall b' :: b < b' ==> !NameSpan(s, i, b')
  {
    var e := LineEnd(s, i);
    forall b | NameSpan(s, i, b)
      ensures b + 2 <= e
    {
      assert s[b] == s[b..b + 2][0] && s[b + 1] == s[b..b + 2][1];
      LineEndBeyond(s, i, b + 2);
    }
  }

  /**
    `r` is what `re.findall(..)[0]` of the paren pattern gives when the
    search starts at `i`: the match from the leftmost "(" at which the
    pattern matches, through the last ")" it can reach from there; None
    when it matches nowhere.
  */
  ghost predicate IsParenMatch(s: string, i: int, r: Option<string>) {
    && (r.None? ==> forall a, c :: i <= a ==> !ParenSpan(s, a, c))
    && (r.Some? ==>
          exists a, c :: i <= a && ParenSpan(s, a, c) && r.value == s[a..c + 1]
                         && (forall a', c' :: i <= a' < a ==> !ParenSpan(s, a', c'))
                         && (forall c' :: c < c' ==> !ParenSpan(s, a, c')))
  }

  /** The paren search finds `re.findall`'s first match. */
  lemma {:induction false} ParenFromMatch(s: string, i: nat)
    requires i <= |s|
    ensures IsParenMatch(s, i, ParenFrom(s, i))
    decreases |s| - i
  {
    if i < |s| {
      ParenSpansAt(s, i);
      if s[i] == '(' && LastAt(s, ")", i + 2, LineEnd(s, i + 1)).Some? {
        var c := LastAt(s, ")", i + 2, LineEnd(s, i + 1)).value;
        assert ParenSpan(s, i, c) && ParenFrom(s, i).value == s[i..c + 1];
      } else {
        assert ParenFrom(s, i) == ParenFrom(s, i + 1);
        ParenFromMatch(s, i + 1);
        ParenMatchFromNext(s, i, ParenFrom(s, i));
      }
    }
  }

  /** Where the pattern cannot match at `i`, the first match from `i` is the first one from `i + 1`. */
  lemma ParenMatchFromNext(s: string, i: int, r: Option<string>)
    requires IsParenMatch(s, i + 1, r) && forall c :: !ParenSpan(s, i, c)
    ensures IsParenMatch(s, i, r)
  {
    if r.Some? {
      var a, c :| i + 1 <= a && ParenSpan(s, a, c) && r.value == s[a..c + 1]
                  && (forall a', c' :: i + 1 <= a' < a ==> !ParenSpan(s, a', c'))
                  && (forall c' :: c < c' ==> !ParenSpan(s, a, c'));
      assert forall a', c' :: i <= a' < a ==> !ParenSpan(s, a', c');
    }
  }

  /** From a "(" at `i` the paren pattern reaches exactly the ")" that LastAt finds on its line. */
  lemma ParenSpansAt(s: string, i: nat)
    requires i < |s|
    ensures s[i] != '(' ==> forall c :: !ParenSpan(s, i, c)
    ensures s[i] == '(' && i + 1 <= |s| ==>
      var found := LastAt(s, ")", i + 2, LineEnd(s, i + 1));
      && (found.None? ==> forall c :: !ParenSpan(s, i, c))
      && (found.Some? ==> ParenSpan(s, i, found.value) && forall c' :: found.value < c' ==> !ParenSpan(s, i, c'))
  {
    if s[i] == '(' {
      var e := LineEnd(s, i + 1);
      forall c | ParenSpan(s, i, c)
        ensures c + 1 <= e && OccursAt(s, ")", c)
      {
        assert s[c..c + 1] == [s[c]];
        LineEndBeyond(s, i + 1, c + 1);
      }
      var found := LastAt(s, ")", i + 2, e);
      if found.Some? {
        var c := found.value;
        assert s[c] == s[c..c + 1][0];
      }
    }
  }

  /** `entry['class'][0]`: KeyError without a class attribute, IndexError on an empty one. */
  function Role(classes: Option<seq<string>>): (r: Result<string>)
    ensures r.Ok? <==> classes.Some? && |classes.value| > 0
    ensures r.Ok? ==> r.value == classes.value[0]
    ensures classes.None? ==> r == Err(KeyNotFound)
    ensures classes == Some([]) ==> r == Err(IndexOutOfRange)
  {
    match classes
    case None => Err(KeyNotFound)
    case Some(cs) => if |cs| == 0 then Err(IndexOutOfRange) else Ok(cs[0])
  }

  /**
    The date between the parentheses of an entry not in today's section,
    put in the current year: digit first is "%d %b" in Dutch, anything
    else "%b %d" in English (SiouxParser.py:162-168).
  */
  function EntryDate(cfg: BdayConfig, text: string, year: nat): (r: Result<Date>)
    ensures r.Ok? ==> IsValid(r.value) && r.value.year == year
    ensures ParenFrom(text, 0).None? ==> r == Err(IndexOutOfRange)
  {
    match ParenFrom(text, 0)
    case None => Err(IndexOutOfRange)
    case Some(m) => ParseBirthdayDate(cfg.dutch, cfg.english, Remove(Remove(m, '('), ')'), year)
  }

  /**
    For an entry text of the usual shape `name (date)`, with no newline, no
    parenthesis in the name or date and a non-empty name and date, the name
    and the date text are read back exactly.
  */
  lemma EntryFields(name: string, date: string)
    requires |name| > 0 && |date| > 0
    requires '\n' !in name && '(' !in name && ')' !in name
    requires '\n' !in date && '(' !in date && ')' !in date
    ensures NameFrom(name + " (" + date + ")", 0) == Some(name)
    ensures ParenFrom(name + " (" + date + ")", 0) == Some("(" + date + ")")
    ensures Remove(Remove("(" + date + ")", '('), ')') == date
  {
    NameOfEntry(name, date);
    ParenOfEntry(name, date);
    RemoveAround(date);
  }

  /** For an entry `name (date)`, the birthday is the date text read in the day-month or month-day format. */
  lemma EntryDateOfFields(cfg: BdayConfig, name: string, date: string, year: nat)
    requires |name| > 0 && |date| > 0
    requires '\n' !in name && '(' !in name && ')' !in name
    requires '\n' !in date && '(' !in date && ')' !in date
    ensures EntryDate(cfg, name + " (" + date + ")", year) == ParseBirthdayDate(cfg.dutch, cfg.english, date, year)
  {
    EntryFields(name, date);
  }

  /** The name regex stops at the only " (" of a one-line `name (date)`. */
  lemma NameOfEntry(name: string, date: string)
    requires |name| > 0 && '\n' !in name
    requires '\n' !in date && '(' !in date
    ensures NameFrom(name + " (" + date + ")", 0) == Some(name)
  {
    var s := name + " (" + date + ")";
    var n := |name|;
    assert forall k :: 0 <= k < n ==> s[k] == name[k];
    assert forall k :: n + 2 <= k < |s| - 1 ==> s[k] == date[k - n - 2];
    assert s[n] == ' ' && s[n + 1] == '(' && s[|s| - 1] == ')';
    LineEndBeyond(s, 0, |s|);
    OnlyOpening(name, date);
    assert LastAt(s, " (", 1, |s|) == Some(n);
    assert s[0..n] == name;
  }

  /** In `name (date)` with no "(" in the date, " (" occurs at the end of the name and nowhere after. */
  lemma OnlyOpening(name: string, date: string)
    requires '(' !in date
    ensures OccursAt(name + " (" + date + ")", " (", |name|)
    ensures forall k :: |name| < k && k + 2 <= |name + " (" + date + ")"| ==> !OccursAt(name + " (" + date + ")", " (", k)
  {
    var s := name + " (" + date + ")";
    var n := |name|;
    assert s[n..n + 2] == " (";
    forall k | n < k && k + 2 <= |s|
      ensures !OccursAt(s, " (", k)
    {
      if k + 1 < |s| - 1 {
        assert s[k + 1] == date[k + 1 - n - 2];
        assert date[k + 1 - n - 2] in date;
      } else {
        assert s[k + 1] == ')';
      }
      assert s[k + 1] != '(';
      assert s[k + 1] == (s[k..k + 2])[1];
    }
  }

  /** The paren regex takes the "(" after the name through the closing ")". */
  lemma ParenOfEntry(name: string, date: string)
    requires |date| > 0 && '(' !in name
    requires '\n' !in date
    ensures ParenFrom(name + " (" + date + ")", 0) == Some("(" + date + ")")
  {
    var s := name + " (" + date + ")";
    var n := |name|;
    forall k | 0 <= k <= n
      ensures s[k] != '('
    {
      if k < n {
        assert s[k] == name[k];
      }
    }
    forall k | n + 2 <= k < |s|
      ensures s[k] != '\n'
    {
      if k < |s| - 1 {
        assert s[k] == date[k - n - 2];
      }
    }
    assert s[n + 1] == '(' && s[|s| - 1] == ')';
    ParenOfShape(s, n);
    assert s[n + 1..] == "(" + date + ")";
  }

  /** The paren search on a text with its first "(" at `n + 1`, no newline after it and a final ")". */
  lemma ParenOfShape(s: string, n: nat)
    requires n + 3 < |s| && s[n + 1] == '(' && s[|s| - 1] == ')'
    requires forall k :: 0 <= k <= n ==> s[k] != '('
    requires forall k :: n + 2 <= k < |s| ==> s[k] != '\n'
    ensures ParenFrom(s, 0) == Some(s[n + 1..])
  {
    ParenFromSkips(s, 0, n + 1);
    ParenToEnd(s, n + 1);
  }

  /** A "(" whose line runs to the end of the text, which ends in ")", matches through that ")". */
  lemma ParenToEnd(s: string, i: nat)
    requires i + 2 < |s| && s[i] == '(' && s[|s| - 1] == ')'
    requires forall k :: i + 1 <= k < |s| ==> s[k] != '\n'
    ensures ParenFrom(s, i) == Some(s[i..])
  {
    LineEndBeyond(s, i + 1, |s|);
    assert LineEnd(s, i + 1) == |s|;
    assert s[|s| - 1..|s|] == ")";
    assert LastAt(s, ")", i + 2, |s|) == Some(|s| - 1);
    assert s[i..|s| - 1 + 1] == s[i..];
  }

  /** The paren search passes over offsets that hold no "(". */
  lemma {:induction false} ParenFromSkips(s: string, i: nat, m: nat)
    requires i <= m <= |s|
    requires forall k :: i <= k < m ==> s[k] != '('
    ensures ParenFrom(s, i) == ParenFrom(s, m)
    decreases m - i
  {
    if i < m {
      ParenFromSkips(s, i + 1, m);
    }
  }

  lemma RemoveAround(date: string)
    requires '(' !in date && ')' !in date
    ensures Remove(Remove("(" + date + ")", '('), ')') == date
  {
    assert "(" + date + ")" == ["("[0]] + (date + ")");
    assert Remove(date + ")", '(') == date + ")" ;
    assert Remove("(" + date + ")", '(') == date + ")";
    RemoveLast(date, ')');
  }

  lemma {:induction false} RemoveLast(s: string, c: char)
    requires c !in s
    ensures Remove(s + [c], c) == s
  {
    if s != [] {
      assert (s + [c])[1..] == s[1..] + [c];
      RemoveLast(s[1..], c);
    }
  }

  // ---- one entry (SiouxParser.py:146-173) ---------------------------------------

  /**
    One entry as the corrected loop records it: section, then name, then
    role, then date, each step raising as the source does. An entry in
    today's section gets today's date.
  */
  function EntryRow(cfg: BdayConfig, h: Headers, page: string, today: Date, e: BdayEntry): Result<BdayRow>
  {
    match Classify(h, Find(page, e.text))
    case Err(x) => Err(x)
    case Ok(rel) =>
      match NameFrom(e.text, 0)
      case None => Err(IndexOutOfRange)
      case Some(name) =>
        match Role(e.classes)
        case Err(x) => Err(x)
        case Ok(role) =>
          if rel == Today then Ok(BdayRow(name, today, role, rel))
          else
            match EntryDate(cfg, e.text, today.year)
            case Err(x) => Err(x)
            case Ok(d) => Ok(BdayRow(name, d, role, rel))
  }

  /**
    A recorded entry carries the section its offset falls in, the name and
    role read from it, and today's date in today's section or else the date
    between its parentheses; an entry in no section raises, whatever else it holds.
  */
  lemma EntryRowSpec(cfg: BdayConfig, h: Headers, page: string, today: Date, e: BdayEntry)
    ensures var r := EntryRow(cfg, h, page, today, e);
      && (r.Ok? ==> Classify(h, Find(page, e.text)) == Ok(r.value.relTime))
      && (r.Ok? ==> NameFrom(e.text, 0) == Some(r.value.name) && Role(e.classes) == Ok(r.value.role))
      && (r.Ok? && r.value.relTime == Today ==> r.value.date == today)
      && (r.Ok? && r.value.relTime != Today ==> EntryDate(cfg, e.text, today.year) == Ok(r.value.date))
      && (Classify(h, Find(page, e.text)).Err? ==> r == Err(BirthdaySectionFailed))
      && (Classify(h, Find(page, e.text)).Ok? && NameFrom(e.text, 0).None? ==> r == Err(IndexOutOfRange))
      && (Classify(h, Find(page, e.text)).Ok? && NameFrom(e.text, 0).Some? && Role(e.classes).Err?
          ==> r == Err(Role(e.classes).error))
      && (Classify(h, Find(page, e.text)).Ok? && NameFrom(e.text, 0).Some? && Role(e.classes).Ok?
          && Classify(h, Find(page, e.text)).value != Today && EntryDate(cfg, e.text, today.year).Err?
          ==> r == Err(EntryDate(cfg, e.text, today.year).error))
      && (Classify(h, Find(page, e.text)).Ok? && NameFrom(e.text, 0).Some? && Role(e.classes).Ok?
          && (Classify(h, Find(page, e.text)).value == Today || EntryDate(cfg, e.text, today.year).Ok?)
          ==> r.Ok?)
  {
  }

  /** The outcome of every entry, in page order. */
  function EntryRows(cfg: BdayConfig, h: Headers, page: string, today: Date, es: seq<BdayEntry>): (r: seq<Result<BdayRow>>)
    ensures |r| == |es| && forall k :: 0 <= k < |es| ==> r[k] == EntryRow(cfg, h, page, today, es[k])
  {
    seq(|es|, k requires 0 <= k < |es| => EntryRow(cfg, h, page, today, es[k]))
  }

  /** The entries `bday[0].findAll(...)`: IndexError when the overall selector matched nothing. */
  function Entries(page: BdayPage): Result<seq<BdayEntry>> {
    if |page.sections| == 0 then Err(IndexOutOfRange) else Ok(page.sections[0])
  }

  /** The four columns of a list of rows. */
  function Columns(rows: seq<BdayRow>): (raw: RawBirthdays)
    ensures |raw.names| == |raw.dates| == |raw.roles| == |raw.relTimes| == |rows|
    ensures forall k :: 0 <= k < |rows| ==>
      rows[k] == BdayRow(raw.names[k], raw.dates[k], raw.roles[k], raw.relTimes[k])
  {
    RawBirthdays(seq(|rows|, k requires 0 <= k < |rows| => rows[k].name),
                 seq(|rows|, k requires 0 <= k < |rows| => rows[k].date),
                 seq(|rows|, k requires 0 <= k < |rows| => rows[k].role),
                 seq(|rows|, k requires 0 <= k < |rows| => rows[k].relTime))
  }

  /**
    What the corrected `__get_recent_birthdays` stores: the columns of every
    entry's row, or the first error.
  */
  function BirthdaysTable(cfg: BdayConfig, page: BdayPage, today: Date): Result<RawBirthdays> {
    match Entries(page)
    case Err(x) => Err(x)
    case Ok(es) =>
      match Collect(EntryRows(cfg, HeadersOf(cfg, page.text), page.text, today, es))
      case Err(x) => Err(x)
      case Ok(rows) => Ok(Columns(rows))
  }

  /**
    The corrected `__get_recent_birthdays` loop: every entry appends one
    value to each of the four columns, so the columns stay in step; the
    first entry that raises ends the loop with that error.
  */
  method CollectBirthdays(cfg: BdayConfig, page: BdayPage, today: Date) returns (r: Result<RawBirthdays>)
    ensures r == BirthdaysTable(cfg, page, today)
    ensures r.Ok? ==> |r.value.names| == |r.value.dates| == |r.value.roles| == |r.value.relTimes| == |page.sections[0]|
  {
    if |page.sections| == 0 {
      return Err(IndexOutOfRange);
    }
    var h := HeadersOf(cfg, page.text);
    var es := page.sections[0];
    ghost var rows: seq<BdayRow> := [];
    var names: seq<string> := [];
    var dates: seq<Date> := [];
    var roles: seq<string> := [];
    var relTimes: seq<RelTime> := [];
    var i := 0;
    assert es[..0] == [];
    while i < |es|
      invariant 0 <= i <= |es|
      invariant Collect(EntryRows(cfg, h, page.text, today, es[..i])) == Ok(rows)
      invariant RawBirthdays(names, dates, roles, relTimes) == Columns(rows)
    {
      var row := EntryRow(cfg, h, page.text, today, es[i]);
      EntriesStep(cfg, h, page.text, today, es, i);
      if row.Err? {
        CollectPrefixError(EntryRows(cfg, h, page.text, today, es), i + 1);
        return Err(row.error);
      }
      ColumnsSnoc(rows, row.value);
      rows := rows + [row.value];
      names := names + [row.value.name];
      dates := dates + [row.value.date];
      roles := roles + [row.value.role];
      relTimes := relTimes + [row.value.relTime];
      i := i + 1;
    }
    assert es[..i] == es;
    return Ok(RawBirthdays(names, dates, roles, relTimes));
  }

  /** The loop's step: the prefix of outcomes grows by the next entry's outcome. */
  lemma EntriesStep(cfg: BdayConfig, h: Headers, page: string, today: Date, es: seq<BdayEntry>, i: nat)
    requires i < |es|
    ensures EntryRows(cfg, h, page, today, es)[..i + 1] == EntryRows(cfg, h, page, today, es[..i + 1])
    ensures Collect(EntryRows(cfg, h, page, today, es[..i])).Ok? ==>
      Collect(EntryRows(cfg, h, page, today, es[..i + 1]))
      == if EntryRow(cfg, h, page, today, es[i]).Ok?
         then Ok(Collect(EntryRows(cfg, h, page, today, es[..i])).value + [EntryRow(cfg, h, page, today, es[i]).value])
         else Err(EntryRow(cfg, h, page, today, es[i]).error)
  {
    var xs := EntryRows(cfg, h, page, today, es[..i + 1]);
    assert xs == EntryRows(cfg, h, page, today, es[..i]) + [EntryRow(cfg, h, page, today, es[i])];
    if Collect(EntryRows(cfg, h, page, today, es[..i])).Ok? {
      CollectSnoc(EntryRows(cfg, h, page, today, es[..i]), EntryRow(cfg, h, page, today, es[i]));
    }
  }

  lemma ColumnsSnoc(rows: seq<BdayRow>, row: BdayRow)
    ensures Columns(rows + [row])
         == RawBirthdays(Columns(rows).names + [row.name], Columns(rows).dates + [row.date],
                         Columns(rows).roles + [row.role], Columns(rows).relTimes + [row.relTime])
  {
  }

  /** Python's `zip` over the four columns: one row per index of the shortest. */
  function Rows(raw: RawBirthdays): (rows: seq<BdayRow>)
    ensures |rows| == Min(Min(|raw.names|, |raw.dates|), Min(|raw.roles|, |raw.relTimes|))
    ensures forall k :: 0 <= k < |rows| ==>
      rows[k] == BdayRow(raw.names[k], raw.dates[k], raw.roles[k], raw.relTimes[k])
  {
    var n := Min(Min(|raw.names|, |raw.dates|), Min(|raw.roles|, |raw.relTimes|));
    seq(n, k requires 0 <= k < n => BdayRow(raw.names[k], raw.dates[k], raw.roles[k], raw.relTimes[k]))
  }

  /** Splitting the zipped rows of equally long columns gives the columns back. */
  lemma ColumnsOfZip(raw: RawBirthdays)
    requires |raw.names| == |raw.dates| == |raw.roles| == |raw.relTimes|
    ensures Columns(Rows(raw)) == raw
  {
    var back := Columns(Rows(raw));
    assert back.names == raw.names;
    assert back.dates == raw.dates;
    assert back.roles == raw.roles;
    assert back.relTimes == raw.relTimes;
  }

  /** Zipping the columns of a list of rows gives the rows back. */
  lemma ZipColumns(rows: seq<BdayRow>)
    ensures Rows(Columns(rows)) == rows
  {
    var raw := Columns(rows);
    var zipped := Rows(raw);
    assert |zipped| == |rows|;
    assert forall k :: 0 <= k < |rows| ==> zipped[k] == rows[k];
  }

  // ---- filter_bday and parse_birthdays -------------------------------------------

  /** Position of each section in the order filter_bday lists them. */
  function Rank(t: RelTime): nat {
    match t
    case Today => 0
    case Future => 1
    case Past => 2
  }

  /**
    `filter_bday`: the wanted sections, exactly those whose flag is set, in
    the order today, future, past (so none twice).
  */
  method FilterBday(today: bool, future: bool, past: bool) returns (f: seq<RelTime>)
    ensures Today in f <==> today
    ensures Future in f <==> future
    ensures Past in f <==> past
    ensures forall i, j :: 0 <= i < j < |f| ==> Rank(f[i]) < Rank(f[j])
  {
    f := [];
    if today {
      f := f + [Today];
    }
    if future {
      f := f + [Future];
    }
    if past {
      f := f + [Past];
    }
  }

  /** What `parse_birthdays` does with one row: the record when its section is wanted. */
  function Choice(row: BdayRow, filter: seq<RelTime>): Option<BirthdayOut> {
    if row.relTime in filter then Some(BirthdayOut(row.name, Format(row.date), row.role)) else None
  }

  function Choices(rows: seq<BdayRow>, filter: seq<RelTime>): (r: seq<Option<BirthdayOut>>)
    ensures |r| == |rows| && forall k :: 0 <= k < |rows| ==> r[k] == Choice(rows[k], filter)
  {
    seq(|rows|, k requires 0 <= k < |rows| => Choice(rows[k], filter))
  }

  /** The records `parse_birthdays` returns for the stored columns. */
  function SelectBirthdays(raw: RawBirthdays, filter: seq<RelTime>): seq<BirthdayOut> {
    Somes(Choices(Rows(raw), filter))
  }

  /**
    `parse_birthdays`' loop over the zipped columns: one record per row
    whose section is in the filter, appended in row order.
  */
  method FilterBirthdays(raw: RawBirthdays, filter: seq<RelTime>) returns (out: seq<BirthdayOut>)
    ensures out == SelectBirthdays(raw, filter)
  {
    var rows := Rows(raw);
    ghost var cs := Choices(rows, filter);
    out := [];
    var i := 0;
    while i < |rows|
      invariant 0 <= i <= |rows|
      invariant out == Somes(cs[..i])
    {
      assert cs[..i + 1][..i] == cs[..i];
      if rows[i].relTime in filter {
        out := out + [BirthdayOut(rows[i].name, Format(rows[i].date), rows[i].role)];
      }
      i := i + 1;
    }
    assert cs[..i] == cs;
  }

  /**
    `parse_birthdays` returns exactly the rows whose section is in the
    filter, in their original order: the j-th record is the j-th such row,
    with its date printed as dd/mm/yyyy.
  */
  lemma SelectBirthdaysExact(raw: RawBirthdays, filter: seq<RelTime>)
    ensures var rows := Rows(raw); var idx := SomeOffsets(Choices(rows, filter));
      && |SelectBirthdays(raw, filter)| == |idx|
      && (forall i, j :: 0 <= i < j < |idx| ==> idx[i] < idx[j])
      && (forall j :: 0 <= j < |idx| ==>
            idx[j] < |rows| && rows[idx[j]].relTime in filter
            && SelectBirthdays(raw, filter)[j]
               == BirthdayOut(rows[idx[j]].name, Format(rows[idx[j]].date), rows[idx[j]].role))
      && (forall k :: 0 <= k < |rows| && rows[k].relTime in filter ==> k in idx)
  {
    SomesSelection(Choices(Rows(raw), filter));
  }

  /** A filter with every section keeps every row, in order. */
  lemma FullFilterKeepsAll(raw: RawBirthdays)
    ensures |SelectBirthdays(raw, [Today, Future, Past])| == |Rows(raw)|
    ensures forall k :: 0 <= k < |Rows(raw)| ==>
      SelectBirthdays(raw, [Today, Future, Past])[k].name == Rows(raw)[k].name
  {
    var rows := Rows(raw);
    forall k | 0 <= k < |rows|
      ensures rows[k].relTime in [Today, Future, Past]
    {
      match rows[k].relTime
      case Today =>
      case Future =>
      case Past =>
    }
    SomesOfPresent(Choices(rows, [Today, Future, Past]));
  }

  /** An empty filter keeps nothing. */
  lemma EmptyFilterKeepsNone(raw: RawBirthdays)
    ensures SelectBirthdays(raw, []) == []
  {
    SomesOfAbsent(Choices(Rows(raw), []));
  }

  // ---- the source as written (SiouxParser.py:159-160) ------------------------------

  /**
    The Date column of the source: a list, until a today entry replaces the
    whole list by today's date.
  */
  datatype DateColumn = DateList(dates: seq<Date>) | Overwritten(date: Date)

  /** Line 160 assigns today's date to the column; line 170 appends, which a date cannot do. */
  function StepAsWritten(col: DateColumn, row: BdayRow): Result<DateColumn> {
    if row.relTime == Today then Ok(Overwritten(row.date))
    else
      match col
      case DateList(ds) => Ok(DateList(ds + [row.date]))
      case Overwritten(_) => Err(AttributeMissing)
  }

  /** The Date column the source's loop builds over `rows`, starting from `col`. */
  function DateColumnAsWritten(rows: seq<Result<BdayRow>>, col: DateColumn): Result<DateColumn>
    decreases |rows|
  {
    if rows == [] then Ok(col)
    else
      match rows[0]
      case Err(x) => Err(x)
      case Ok(row) =>
        match StepAsWritten(col, row)
        case Err(x) => Err(x)
        case Ok(next) => DateColumnAsWritten(rows[1..], next)
  }

  /**
    `__get_recent_birthdays` followed by `parse_birthdays` as written: the
    Date column is built as above, and zip raises on a column that is a date.
  */
  function ParseBirthdaysAsWritten(cfg: BdayConfig, page: BdayPage, today: Date, filter: seq<RelTime>): Result<seq<BirthdayOut>> {
    match Entries(page)
    case Err(x) => Err(x)
    case Ok(es) =>
      var xs := EntryRows(cfg, HeadersOf(cfg, page.text), page.text, today, es);
      match DateColumnAsWritten(xs, DateList([]))
      case Err(x) => Err(x)
      case Ok(Overwritten(_)) => Err(NotIterable)
      case Ok(DateList(_)) =>
        match Collect(xs)
        case Err(x) => Err(x)
        case Ok(rows) => Ok(SelectBirthdays(Columns(rows), filter))
  }

  /** Once overwritten, the column stays a date or the loop raises. */
  lemma {:induction false} OverwrittenStays(rows: seq<Result<BdayRow>>, d: Date)
    ensures DateColumnAsWritten(rows, Overwritten(d)).Err? || DateColumnAsWritten(rows, Overwritten(d)).value.Overwritten?
    decreases |rows|
  {
    if rows != [] && rows[0].Ok? {
      var next := StepAsWritten(Overwritten(d), rows[0].value);
      if next.Ok? {
        OverwrittenStays(rows[1..], next.value.date);
      }
    }
  }

  /** A today row anywhere leaves the column a date or makes the loop raise. */
  lemma {:induction false} TodayOverwrites(rows: seq<Result<BdayRow>>, col: DateColumn, k: nat)
    requires k < |rows| && rows[k].Ok? && rows[k].value.relTime == Today
    ensures DateColumnAsWritten(rows, col).Err? || DateColumnAsWritten(rows, col).value.Overwritten?
    decreases |rows|
  {
    if rows[0].Ok? {
      var next := StepAsWritten(col, rows[0].value);
      if next.Ok? {
        if k == 0 {
          OverwrittenStays(rows[1..], next.value.date);
        } else {
          TodayOverwrites(rows[1..], next.value, k - 1);
        }
      }
    }
  }

  /**
    The defect: on a page where every entry parses and one lies in today's
    section, the source's `parse_birthdays` raises (AttributeError on the
    next append, or TypeError in zip), while the corrected loop returns a
    table whose columns are in step.
  */
  lemma TodayBreaksParseBirthdays(cfg: BdayConfig, page: BdayPage, today: Date, filter: seq<RelTime>, k: nat)
    requires |page.sections| > 0 && k < |page.sections[0]|
    requires forall j :: 0 <= j < |page.sections[0]| ==>
      EntryRow(cfg, HeadersOf(cfg, page.text), page.text, today, page.sections[0][j]).Ok?
    requires EntryRow(cfg, HeadersOf(cfg, page.text), page.text, today, page.sections[0][k]).value.relTime == Today
    ensures ParseBirthdaysAsWritten(cfg, page, today, filter) == Err(AttributeMissing)
         || ParseBirthdaysAsWritten(cfg, page, today, filter) == Err(NotIterable)
    ensures BirthdaysTable(cfg, page, today).Ok?
  {
    var xs := EntryRows(cfg, HeadersOf(cfg, page.text), page.text, today, page.sections[0]);
    TodayOverwrites(xs, DateList([]), k);
    NoRowErrorFromColumn(xs, DateList([]));
  }

  /** When no row raises, the only error the as-written column can meet is the append on a date. */
  lemma {:induction false} NoRowErrorFromColumn(rows: seq<Result<BdayRow>>, col: DateColumn)
    requires forall j :: 0 <= j < |rows| ==> rows[j].Ok?
    ensures DateColumnAsWritten(rows, col).Err? ==> DateColumnAsWritten(rows, col).error == AttributeMissing
    decreases |rows|
  {
    if rows != [] {
      var next := StepAsWritten(col, rows[0].value);
      if next.Ok? {
        NoRowErrorFromColumn(rows[1..], next.value);
      }
    }
  }
}
