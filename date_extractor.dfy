/**
  Date extraction: `__parse_event_date` (SiouxParser.py:69-81), which runs
  `re.findall("\d\d +[a-z]+ '\d\d", s)` and `strptime(.., "%d %b '%y")` on
  every match, and the two strptime formats the birthday page needs
  (SiouxParser.py:163-169): "%d %b" with the Dutch month table and "%b %d"
  with the English one.

  The process locale is replaced by explicit month tables.
*/
module DateExtractor {
  import opened Base
  import opened Dates
  import opened Text

  /** A locale's twelve abbreviated month names (`%b`), January first. */
  type MonthNames = t: seq<string> | |t| == 12 witness ["", "", "", "", "", "", "", "", "", "", "", ""]

  /** The `\s` of strptime's patterns (ASCII whitespace). */
  predicate IsBlank(c: char) {
    c == ' ' || '\t' <= c <= '\r'
  }

  predicate IsLowerLetter(c: char) {
    'a' <= c <= 'z'
  }

  /**
    strptime's `%b`: the month (1-12) whose name equals `word` ignoring case;
    the first one when the table repeats a name.
  */
  function MonthNumber(months: MonthNames, word: string): (r: Option<nat>)
    ensures r.Some? ==> 1 <= r.value <= 12 && Lower(months[r.value - 1]) == Lower(word)
    ensures r.Some? ==> forall k :: 0 <= k < r.value - 1 ==> Lower(months[k]) != Lower(word)
    ensures r.None? ==> forall k :: 0 <= k < 12 ==> Lower(months[k]) != Lower(word)
  {
    MonthFrom(months, word, 0)
  }

  function MonthFrom(months: MonthNames, word: string, k: nat): (r: Option<nat>)
    requires k <= 12
    ensures r.Some? ==> k < r.value <= 12 && Lower(months[r.value - 1]) == Lower(word)
    ensures r.Some? ==> forall j :: k <= j < r.value - 1 ==> Lower(months[j]) != Lower(word)
    ensures r.None? ==> forall j :: k <= j < 12 ==> Lower(months[j]) != Lower(word)
    decreases 12 - k
  {
    if k == 12 then None
    else if Lower(months[k]) == Lower(word) then Some(k + 1)
    else MonthFrom(months, word, k + 1)
  }

  /** strptime's `%y`: 69-99 are 1969-1999, 00-68 are 2000-2068. */
  function CenturyOf(yy: nat): (y: nat)
    requires yy < 100
    ensures 1969 <= y <= 2068 && y % 100 == yy
  {
    if yy <= 68 then 2000 + yy else 1900 + yy
  }

  // ---- the event-date pattern \d\d +[a-z]+ '\d\d --------------------------------

  /** The first index at or after `i` that is not a space (or |s|). */
  function SpacesEnd(s: string, i: nat): (r: nat)
    requires i <= |s|
    ensures i <= r <= |s| && (r == |s| || s[r] != ' ')
    ensures forall k :: i <= k < r ==> s[k] == ' '
    decreases |s| - i
  {
    if i < |s| && s[i] == ' ' then SpacesEnd(s, i + 1) else i
  }

  /** The first index at or after `i` that is not a lower-case ASCII letter (or |s|). */
  function LettersEnd(s: string, i: nat): (r: nat)
    requires i <= |s|
    ensures i <= r <= |s| && (r == |s| || !IsLowerLetter(s[r]))
    ensures forall k :: i <= k < r ==> IsLowerLetter(s[k])
    decreases |s| - i
  {
    if i < |s| && IsLowerLetter(s[i]) then LettersEnd(s, i + 1) else i
  }

  /** One match of the event-date pattern: its span and its three fields. */
  datatype Token = Token(start: nat, end: nat, day: string, month: string, year: string)

  /** `w` is a whole word of the pattern `\d\d +[a-z]+ '\d\d`. */
  ghost predicate IsDateWord(w: string) {
    && |w| >= 8
    && IsDigit(w[0]) && IsDigit(w[1])
    && w[|w| - 4] == ' ' && w[|w| - 3] == '\'' && IsDigit(w[|w| - 2]) && IsDigit(w[|w| - 1])
    && exists j :: 3 <= j < |w| - 4 && SpacesThenLetters(w, j)
  }

  /** Between offset 2 and |w|-4, `w` is spaces up to `j` and lower-case letters from `j`. */
  ghost predicate SpacesThenLetters(w: string, j: int)
    requires 3 <= j < |w| - 4
  {
    (forall k :: 2 <= k < j ==> w[k] == ' ') && (forall k :: j <= k < |w| - 4 ==> IsLowerLetter(w[k]))
  }

  /**
    The match of the pattern that starts at offset `i`, if any. The pattern
    can match at most one way at a given offset, since the spaces, the
    letters and the final " '" cannot overlap.
  */
  function MatchAt(s: string, i: nat): (r: Option<Token>)
    requires i <= |s|
    ensures r.Some? ==> r.value.start == i && i < r.value.end <= |s|
  {
    if i + 2 <= |s| && IsDigit(s[i]) && IsDigit(s[i + 1]) then
      var k := SpacesEnd(s, i + 2);
      var m := LettersEnd(s, k);
      if k > i + 2 && m > k && m + 4 <= |s| && s[m] == ' ' && s[m + 1] == '\''
         && IsDigit(s[m + 2]) && IsDigit(s[m + 3])
      then Some(Token(i, m + 4, s[i..i + 2], s[k..m], s[m + 2..m + 4]))
      else None
    else
      None
  }

  /** A match found at `i` is a word of the pattern; its fields are the day digits, the month letters and the year digits. */
  lemma MatchAtSound(s: string, i: nat)
    requires i <= |s| && MatchAt(s, i).Some?
    ensures var t := MatchAt(s, i).value;
      && IsDateWord(s[i..t.end])
      && t.day == s[i..i + 2] && |t.day| == 2 && IsDigit(t.day[0]) && IsDigit(t.day[1])
      && t.year == s[t.end - 2..t.end] && |t.year| == 2 && IsDigit(t.year[0]) && IsDigit(t.year[1])
      && |t.month| > 0 && forall k :: 0 <= k < |t.month| ==> IsLowerLetter(t.month[k])
  {
    var k := SpacesEnd(s, i + 2);
    var m := LettersEnd(s, k);
    var w := s[i..m + 4];
    assert SpacesThenLetters(w, k - i);
  }

  /** Conversely, a word of the pattern at offset `i` is the match MatchAt finds there. */
  lemma MatchAtComplete(s: string, i: nat, e: nat)
    requires i <= e <= |s| && IsDateWord(s[i..e])
    ensures MatchAt(s, i).Some? && MatchAt(s, i).value.end == e
  {
    var j :| 3 <= j < e - i - 4 && SpacesThenLetters(s[i..e], j);
    WordInText(s, i, e, j);
    SpacesRun(s, i + 2, i + j);
    LettersRun(s, i + j, e - 4);
  }

  /** The characters of a word of the pattern, read at their offsets in the whole text. */
  lemma WordInText(s: string, i: nat, e: nat, j: nat)
    requires i <= e <= |s| && IsDateWord(s[i..e])
    requires 3 <= j < e - i - 4 && SpacesThenLetters(s[i..e], j)
    ensures IsDigit(s[i]) && IsDigit(s[i + 1])
    ensures forall x :: i + 2 <= x < i + j ==> s[x] == ' '
    ensures forall x :: i + j <= x < e - 4 ==> IsLowerLetter(s[x])
    ensures s[e - 4] == ' ' && s[e - 3] == '\'' && IsDigit(s[e - 2]) && IsDigit(s[e - 1])
  {
    var w := s[i..e];
    assert forall x :: i <= x < e ==> s[x] == w[x - i];
  }

  lemma {:induction false} SpacesRun(s: string, i: nat, e: nat)
    requires i <= e < |s|
    requires forall x :: i <= x < e ==> s[x] == ' '
    requires s[e] != ' '
    ensures SpacesEnd(s, i) == e
    decreases e - i
  {
    if i < e {
      SpacesRun(s, i + 1, e);
    }
  }

  lemma {:induction false} LettersRun(s: string, i: nat, e: nat)
    requires i <= e < |s|
    requires forall x :: i <= x < e ==> IsLowerLetter(s[x])
    requires !IsLowerLetter(s[e])
    ensures LettersEnd(s, i) == e
    decreases e - i
  {
    if i < e {
      LettersRun(s, i + 1, e);
    }
  }

  /** Offset `p` lies inside one of the matches in `ts`. */
  ghost predicate Covered(ts: seq<Token>, p: int) {
    exists k :: 0 <= k < |ts| && ts[k].start <= p < ts[k].end
  }

  /**
    `re.findall` from offset `i`: try the pattern at each offset from left to
    right; after a match, resume where it ended.
  */
  function FindAllFrom(s: string, i: nat): (ts: seq<Token>)
    requires i <= |s|
    ensures forall k :: 0 <= k < |ts| ==> i <= ts[k].start < ts[k].end <= |s|
    decreases |s| - i
  {
    if i == |s| then []
    else
      match MatchAt(s, i)
      case Some(t) => [t] + FindAllFrom(s, t.end)
      case None => FindAllFrom(s, i + 1)
  }

  /** Every token findall reports is the match at its own start. */
  lemma {:induction false} FindAllFromMatches(s: string, i: nat)
    requires i <= |s|
    ensures forall k :: 0 <= k < |FindAllFrom(s, i)| ==>
              MatchAt(s, FindAllFrom(s, i)[k].start) == Some(FindAllFrom(s, i)[k])
    decreases |s| - i
  {
    if i < |s| {
      var m := MatchAt(s, i);
      if m.Some? {
        var rest := FindAllFrom(s, m.value.end);
        var ts := [m.value] + rest;
        assert FindAllFrom(s, i) == ts;
        FindAllFromMatches(s, m.value.end);
        forall k | 0 <= k < |ts|
          ensures MatchAt(s, ts[k].start) == Some(ts[k])
        {
          if k > 0 {
            assert ts[k] == rest[k - 1];
            assert MatchAt(s, rest[k - 1].start) == Some(rest[k - 1]);
          } else {
            assert ts[0] == m.value && m.value.start == i;
          }
        }
      } else {
        assert FindAllFrom(s, i) == FindAllFrom(s, i + 1);
        FindAllFromMatches(s, i + 1);
      }
    }
  }

  /** findall's tokens come left to right and do not overlap. */
  lemma {:induction false} FindAllFromOrdered(s: string, i: nat)
    requires i <= |s|
    ensures forall k :: 0 <= k < |FindAllFrom(s, i)| - 1 ==>
              FindAllFrom(s, i)[k].end <= FindAllFrom(s, i)[k + 1].start
    decreases |s| - i
  {
    if i < |s| {
      var m := MatchAt(s, i);
      if m.Some? {
        var rest := FindAllFrom(s, m.value.end);
        var ts := [m.value] + rest;
        assert FindAllFrom(s, i) == ts;
        FindAllFromOrdered(s, m.value.end);
        forall k | 0 <= k < |ts| - 1
          ensures ts[k].end <= ts[k + 1].start
        {
          if k > 0 {
            assert ts[k] == rest[k - 1] && ts[k + 1] == rest[k];
          } else {
            assert ts[1] == rest[0] && rest[0].start >= m.value.end;
          }
        }
      } else {
        assert FindAllFrom(s, i) == FindAllFrom(s, i + 1);
        FindAllFromOrdered(s, i + 1);
      }
    }
  }

  /** No offset outside findall's tokens starts a match: none was skipped. */
  lemma {:induction false} FindAllFromComplete(s: string, i: nat)
    requires i <= |s|
    ensures forall p :: i <= p <= |s| && !Covered(FindAllFrom(s, i), p) ==> MatchAt(s, p).None?
    decreases |s| - i
  {
    if i < |s| {
      var m := MatchAt(s, i);
      if m.Some? {
        var rest := FindAllFrom(s, m.value.end);
        var ts := [m.value] + rest;
        assert FindAllFrom(s, i) == ts;
        FindAllFromComplete(s, m.value.end);
        forall p | i <= p <= |s| && !Covered(ts, p)
          ensures MatchAt(s, p).None?
        {
          CoveredCons(m.value, rest, p);
        }
      } else {
        assert FindAllFrom(s, i) == FindAllFrom(s, i + 1);
        FindAllFromComplete(s, i + 1);
      }
    }
  }

  lemma CoveredCons(t: Token, rest: seq<Token>, p: int)
    ensures Covered([t] + rest, p) <==> (t.start <= p < t.end) || Covered(rest, p)
  {
    var ts := [t] + rest;
    if Covered(rest, p) {
      var k :| 0 <= k < |rest| && rest[k].start <= p < rest[k].end;
      assert ts[k + 1] == rest[k];
    }
    if Covered(ts, p) && !(t.start <= p < t.end) {
      var k :| 0 <= k < |ts| && ts[k].start <= p < ts[k].end;
      assert rest[k - 1] == ts[k];
    }
  }

  /** `re.findall("\d\d +[a-z]+ '\d\d", s)`. */
  function FindAll(s: string): seq<Token> {
    FindAllFrom(s, 0)
  }

  /** `datetime.strptime(token, "%d %b '%y")` under the Dutch month table. */
  function TokenDate(months: MonthNames, t: Token): (r: Result<Date>)
    ensures r.Ok? ==> IsValid(r.value) && 1969 <= r.value.year <= 2068
    ensures r.Ok? ==> r.value.year == CenturyOf(DecimalValue(t.year) % 100)
    ensures r.Ok? ==> r.value.day == DecimalValue(t.day) && MonthNumber(months, t.month) == Some(r.value.month)
    ensures r.Ok? <==> MonthNumber(months, t.month).Some?
                       && IsValid(Date(CenturyOf(DecimalValue(t.year) % 100), MonthNumber(months, t.month).value, DecimalValue(t.day)))
    ensures r.Err? ==> r.error == DateFormatMismatch
  {
    match MonthNumber(months, t.month)
    case None => Err(DateFormatMismatch)
    case Some(m) =>
      var d := Date(CenturyOf(DecimalValue(t.year) % 100), m, DecimalValue(t.day));
      if IsValid(d) then Ok(d) else Err(DateFormatMismatch)
  }

  /** strptime on every token, in order. */
  function TokenResults(months: MonthNames, ts: seq<Token>): (r: seq<Result<Date>>)
    ensures |r| == |ts| && forall k :: 0 <= k < |ts| ==> r[k] == TokenDate(months, ts[k])
  {
    seq(|ts|, k requires 0 <= k < |ts| => TokenDate(months, ts[k]))
  }

  /**
    `__parse_event_date`: None when the text holds no `DD mon 'YY` token,
    otherwise one date per token, left to right; a token strptime rejects
    raises ValueError.
  */
  function ParseEventDate(months: MonthNames, s: string): (r: Result<Option<seq<Date>>>)
    ensures r == Ok(None) <==> FindAll(s) == []
    ensures r.Ok? && r.value.Some? ==>
      && |r.value.value| == |FindAll(s)| > 0
      && forall k :: 0 <= k < |FindAll(s)| ==> TokenDate(months, FindAll(s)[k]) == Ok(r.value.value[k])
    ensures r.Err? <==> exists k :: 0 <= k < |FindAll(s)| && TokenDate(months, FindAll(s)[k]).Err?
    ensures r.Err? ==> r.error == DateFormatMismatch
  {
    var ts := FindAll(s);
    if ts == [] then Ok(None)
    else
      match Collect(TokenResults(months, ts))
      case Err(e) => Err(e)
      case Ok(ds) => Ok(Some(ds))
  }

  /** findall passes over offsets that hold no digit. */
  lemma {:induction false} FindAllFromSkip(s: string, i: nat, m: nat)
    requires i <= m <= |s|
    requires forall k :: i <= k < m ==> !IsDigit(s[k])
    ensures FindAllFrom(s, i) == FindAllFrom(s, m)
    decreases m - i
  {
    if i < m {
      assert MatchAt(s, i).None?;
      FindAllFromSkip(s, i + 1, m);
    }
  }

  /** The match of "DD jan 'YY" at offset `i`. */
  lemma MatchOfJanuary(s: string, i: nat)
    requires i + 10 <= |s|
    requires IsDigit(s[i]) && IsDigit(s[i + 1]) && s[i + 2] == ' '
    requires s[i + 3..i + 6] == "jan" && s[i + 6] == ' ' && s[i + 7] == '\''
    requires IsDigit(s[i + 8]) && IsDigit(s[i + 9])
    ensures MatchAt(s, i) == Some(Token(i, i + 10, s[i..i + 2], "jan", s[i + 8..i + 10]))
  {
    assert s[i + 3] == 'j' && s[i + 4] == 'a' && s[i + 5] == 'n';
    assert SpacesEnd(s, i + 3) == i + 3;
    assert SpacesEnd(s, i + 2) == i + 3;
    assert LettersEnd(s, i + 6) == i + 6;
    assert LettersEnd(s, i + 5) == i + 6;
    assert LettersEnd(s, i + 4) == i + 6;
    assert LettersEnd(s, i + 3) == i + 6;
  }

  /** findall passes over a stretch of text that holds no digit. */
  lemma SkipWords(s: string, i: nat, w: string)
    requires i + |w| <= |s| && s[i..i + |w|] == w
    requires forall k :: 0 <= k < |w| ==> !IsDigit(w[k])
    ensures FindAllFrom(s, i) == FindAllFrom(s, i + |w|)
  {
    assert forall k :: i <= k < i + |w| ==> s[k] == w[k - i];
    FindAllFromSkip(s, i, i + |w|);
  }

  /** The example text "Event on 14 jan '24 to 16 jan '24", written by its parts. */
  function ExampleText(): string {
    "Event on " + ("14" + " jan '" + "24") + " to " + ("16" + " jan '" + "24")
  }

  /** findall finds the two date tokens of the example text, in order. */
  lemma FindAllExample()
    ensures FindAll(ExampleText()) == [Token(9, 19, "14", "jan", "24"), Token(23, 33, "16", "jan", "24")]
  {
    var s := ExampleText();
    var t1, t2 := Token(9, 19, "14", "jan", "24"), Token(23, 33, "16", "jan", "24");
    calc {
      FindAllFrom(s, 0);
      { assert s[..9] == "Event on "; SkipWords(s, 0, "Event on "); }
      FindAllFrom(s, 9);
      { assert s[9..19] == "14" + " jan '" + "24"; JanuaryAt(s, 9, "14", "24"); }
      [t1] + FindAllFrom(s, 19);
      { SecondExampleToken(); }
      [t1, t2];
    }
  }

  /** After the first token, findall finds only the second. */
  lemma SecondExampleToken()
    ensures FindAllFrom(ExampleText(), 19) == [Token(23, 33, "16", "jan", "24")]
  {
    var s := ExampleText();
    calc {
      FindAllFrom(s, 19);
      { assert s[19..23] == " to "; SkipWords(s, 19, " to "); }
      FindAllFrom(s, 23);
      { assert s[23..33] == "16" + " jan '" + "24"; JanuaryAt(s, 23, "16", "24"); }
      [Token(23, 33, "16", "jan", "24")] + FindAllFrom(s, 33);
      { assert |s| == 33; }
      [Token(23, 33, "16", "jan", "24")];
    }
  }

  /** The word `day + " jan '" + yy` at offset `i` is the match there. */
  lemma JanuaryAt(s: string, i: nat, day: string, yy: string)
    requires |day| == 2 && |yy| == 2 && IsDigit(day[0]) && IsDigit(day[1]) && IsDigit(yy[0]) && IsDigit(yy[1])
    requires i + 10 <= |s| && s[i..i + 10] == day + " jan '" + yy
    ensures MatchAt(s, i) == Some(Token(i, i + 10, day, "jan", yy))
  {
    var w := day + " jan '" + yy;
    assert forall k :: 0 <= k < 10 ==> s[i + k] == w[k];
    assert s[i + 3..i + 6] == w[3..6] == "jan";
    assert s[i + 8..i + 10] == w[8..10] == yy;
    assert s[i..i + 2] == w[..2] == day;
    MatchOfJanuary(s, i);
  }

  /** strptime reads "DD jan '24" as the given January day of 2024. */
  lemma JanuaryTokenDate(months: MonthNames, t: Token, day: nat)
    requires months[0] == "jan" && t.month == "jan" && t.year == "24"
    requires 10 <= day <= 31 && DecimalValue(t.day) == day
    ensures TokenDate(months, t) == Ok(Date(2024, 1, day))
  {
    assert Lower("jan") == "jan";
    assert MonthNumber(months, "jan") == Some(1);
    TwoDigits('2', '4');
  }

  lemma TwoDigits(a: char, b: char)
    ensures DecimalValue([a, b]) == 10 * DigitValue(a) + DigitValue(b)
  {
    assert [a][..0] == [];
    assert DecimalValue([a]) == DigitValue(a);
    assert [a, b][..1] == [a];
  }

  /** strptime turns the example's two tokens into 14 and 16 January 2024. */
  lemma ExampleTokenDates(months: MonthNames)
    requires months[0] == "jan"
    ensures Collect(TokenResults(months, [Token(9, 19, "14", "jan", "24"), Token(23, 33, "16", "jan", "24")]))
         == Ok([Date(2024, 1, 14), Date(2024, 1, 16)])
  {
    var t1, t2 := Token(9, 19, "14", "jan", "24"), Token(23, 33, "16", "jan", "24");
    var d1, d2 := Date(2024, 1, 14), Date(2024, 1, 16);
    TwoDigits('1', '4');
    JanuaryTokenDate(months, t1, 14);
    TwoDigits('1', '6');
    JanuaryTokenDate(months, t2, 16);
    assert TokenResults(months, [t1, t2]) == [Ok(d1), Ok(d2)];
    CollectTwo(d1, d2);
  }

  lemma CollectTwo(d1: Date, d2: Date)
    ensures Collect([Ok(d1), Ok(d2)]) == Ok([d1, d2])
  {
    var c := Collect([Ok(d1), Ok(d2)]);
    assert c.Ok? && |c.value| == 2 && c.value[0] == d1 && c.value[1] == d2;
    assert c.value == [d1, d2];
  }

  /** With "jan" as January's abbreviation, the example text yields both dates, in order. */
  lemma ParseEventDateExample(months: MonthNames)
    requires months[0] == "jan"
    ensures ParseEventDate(months, ExampleText()) == Ok(Some([Date(2024, 1, 14), Date(2024, 1, 16)]))
  {
    FindAllExample();
    ExampleTokenDates(months);
  }

  // ---- the birthday formats "%d %b" and "%b %d" ----------------------------------

  /** The first index at or after `i` that is not a digit (or |s|). */
  function DigitsEnd(s: string, i: nat): (r: nat)
    requires i <= |s|
    ensures i <= r <= |s| && (r == |s| || !IsDigit(s[r]))
    ensures forall k :: i <= k < r ==> IsDigit(s[k])
    decreases |s| - i
  {
    if i < |s| && IsDigit(s[i]) then DigitsEnd(s, i + 1) else i
  }

  function BlanksEnd(s: string, i: nat): (r: nat)
    requires i <= |s|
    ensures i <= r <= |s| && (r == |s| || !IsBlank(s[r]))
    ensures forall k :: i <= k < r ==> IsBlank(s[k])
    decreases |s| - i
  {
    if i < |s| && IsBlank(s[i]) then BlanksEnd(s, i + 1) else i
  }

  function NonBlanksEnd(s: string, i: nat): (r: nat)
    requires i <= |s|
    ensures i <= r <= |s| && (r == |s| || IsBlank(s[r]))
    ensures forall k :: i <= k < r ==> !IsBlank(s[k])
    decreases |s| - i
  {
    if i < |s| && !IsBlank(s[i]) then NonBlanksEnd(s, i + 1) else i
  }

  /**
    strptime's `%d` on a whole run of digits: one digit 1-9, or two digits
    01-31 (its alternatives are 3[01], [12]\d, 0[1-9] and [1-9]).
  */
  function DayField(digits: string): (r: Option<nat>)
    ensures r.Some? ==> 1 <= r.value <= 31 && r.value == DecimalValue(digits)
    ensures r.Some? <==> (|digits| == 1 || |digits| == 2) && (forall k :: 0 <= k < |digits| ==> IsDigit(digits[k]))
                         && 1 <= DecimalValue(digits) <= 31
  {
    if (|digits| == 1 || |digits| == 2) && (forall k :: 0 <= k < |digits| ==> IsDigit(digits[k]))
       && 1 <= DecimalValue(digits) <= 31
    then Some(DecimalValue(digits))
    else None
  }

  /**
    strptime builds the date in 1900 when the format has no year and then
    `.replace(year=...)` moves it to `year`; both must be valid dates.
  */
  function DayMonthIn(year: nat, month: nat, day: nat): (r: Result<Date>)
    ensures r.Ok? <==> IsValid(Date(1900, month, day)) && IsValid(Date(year, month, day))
    ensures r.Ok? ==> r.value == Date(year, month, day)
    ensures r.Err? ==> r.error == DateFormatMismatch
  {
    if !IsValid(Date(1900, month, day)) then Err(DateFormatMismatch)
    else if !IsValid(Date(year, month, day)) then Err(DateFormatMismatch)
    else Ok(Date(year, month, day))
  }

  /**
    `s` reads as "%d %b" cut at `i` and `j`: a day field, a run of blanks
    that ends at `j`, and a whole month name.
  */
  predicate DayMonthSplit(months: MonthNames, s: string, i: int, j: int) {
    && 0 < i < j <= |s|
    && DayField(s[..i]).Some?
    && (forall k :: i <= k < j ==> IsBlank(s[k]))
    && (j < |s| ==> !IsBlank(s[j]))
    && MonthNumber(months, s[j..]).Some?
  }

  /**
    `s` reads as "%b %d" cut at `i` and `j`: a month name without blanks, a
    run of blanks, and a day field.
  */
  predicate MonthDaySplit(months: MonthNames, s: string, i: int, j: int) {
    && 0 < i < j < |s|
    && (forall k :: 0 <= k < i ==> !IsBlank(s[k]))
    && (forall k :: i <= k < j ==> IsBlank(s[k]))
    && MonthNumber(months, s[..i]).Some?
    && DayField(s[j..]).Some?
  }

  /** `strptime(s, "%d %b").replace(year=year)`: day digits, blanks, month name, nothing more. */
  function ParseDayMonth(months: MonthNames, s: string, year: nat): (r: Result<Date>)
    ensures r.Ok? ==> IsValid(r.value) && r.value.year == year
    ensures r.Err? ==> r.error == DateFormatMismatch
  {
    var i := DigitsEnd(s, 0);
    var j := BlanksEnd(s, i);
    match DayField(s[..i])
    case None => Err(DateFormatMismatch)
    case Some(day) =>
      if j == i then Err(DateFormatMismatch)
      else
        match MonthNumber(months, s[j..])
        case None => Err(DateFormatMismatch)
        case Some(month) => DayMonthIn(year, month, day)
  }

  /** `strptime(s, "%b %d").replace(year=year)`: month name, blanks, day digits, nothing more. */
  function ParseMonthDay(months: MonthNames, s: string, year: nat): (r: Result<Date>)
    ensures r.Ok? ==> IsValid(r.value) && r.value.year == year
    ensures r.Err? ==> r.error == DateFormatMismatch
  {
    var i := NonBlanksEnd(s, 0);
    var j := BlanksEnd(s, i);
    if i == 0 || j == i || j == |s| then Err(DateFormatMismatch)
    else
      match MonthNumber(months, s[..i])
      case None => Err(DateFormatMismatch)
      case Some(month) =>
        match DayField(s[j..])
        case None => Err(DateFormatMismatch)
        case Some(day) => DayMonthIn(year, month, day)
  }

  /** What "%d %b" accepted: a day field, at least one blank, then a whole month name. */
  lemma ParseDayMonthShape(months: MonthNames, s: string, year: nat)
    requires ParseDayMonth(months, s, year).Ok?
    ensures var d := ParseDayMonth(months, s, year).value;
      exists i, j :: DayMonthSplit(months, s, i, j) && DayField(s[..i]) == Some(d.day)
                     && MonthNumber(months, s[j..]) == Some(d.month)
  {
    var i := DigitsEnd(s, 0);
    var j := BlanksEnd(s, i);
    assert DayMonthSplit(months, s, i, j);
  }

  /** Conversely, a text of the "%d %b" shape is read as its day and month, placed in `year`. */
  lemma ParseDayMonthAccepts(months: MonthNames, s: string, year: nat, i: nat, j: nat)
    requires DayMonthSplit(months, s, i, j)
    ensures ParseDayMonth(months, s, year) == DayMonthIn(year, MonthNumber(months, s[j..]).value, DayField(s[..i]).value)
  {
    assert forall k :: 0 <= k < i ==> IsDigit(s[k]) by {
      forall k | 0 <= k < i ensures IsDigit(s[k]) { assert s[k] == s[..i][k]; }
    }
    DigitsRun(s, 0, i);
    BlanksRun(s, i, j);
  }

  /** What "%b %d" accepted: a whole month name, at least one blank, then a day field. */
  lemma ParseMonthDayShape(months: MonthNames, s: string, year: nat)
    requires ParseMonthDay(months, s, year).Ok?
    ensures var d := ParseMonthDay(months, s, year).value;
      exists i, j :: MonthDaySplit(months, s, i, j) && MonthNumber(months, s[..i]) == Some(d.month)
                     && DayField(s[j..]) == Some(d.day)
  {
    var i := NonBlanksEnd(s, 0);
    var j := BlanksEnd(s, i);
    assert MonthDaySplit(months, s, i, j);
  }

  /** Conversely, a text of the "%b %d" shape is read as its month and day, placed in `year`. */
  lemma ParseMonthDayAccepts(months: MonthNames, s: string, year: nat, i: nat, j: nat)
    requires MonthDaySplit(months, s, i, j)
    ensures ParseMonthDay(months, s, year) == DayMonthIn(year, MonthNumber(months, s[..i]).value, DayField(s[j..]).value)
  {
    assert IsDigit(s[j..][0]);
    NonBlanksRun(s, 0, i);
    BlanksRun(s, i, j);
  }

  lemma {:induction false} DigitsRun(s: string, i: nat, e: nat)
    requires i <= e <= |s|
    requires forall x :: i <= x < e ==> IsDigit(s[x])
    requires e < |s| ==> !IsDigit(s[e])
    ensures DigitsEnd(s, i) == e
    decreases e - i
  {
    if i < e {
      DigitsRun(s, i + 1, e);
    }
  }

  lemma {:induction false} BlanksRun(s: string, i: nat, e: nat)
    requires i <= e <= |s|
    requires forall x :: i <= x < e ==> IsBlank(s[x])
    requires e < |s| ==> !IsBlank(s[e])
    ensures BlanksEnd(s, i) == e
    decreases e - i
  {
    if i < e {
      BlanksRun(s, i + 1, e);
    }
  }

  lemma {:induction false} NonBlanksRun(s: string, i: nat, e: nat)
    requires i <= e <= |s|
    requires forall x :: i <= x < e ==> !IsBlank(s[x])
    requires e < |s| ==> IsBlank(s[e])
    ensures NonBlanksEnd(s, i) == e
    decreases e - i
  {
    if i < e {
      NonBlanksRun(s, i + 1, e);
    }
  }

  /**
    The birthday date of SiouxParser.py:163-169 once the parentheses are
    gone: digit first means the Dutch "%d %b", anything else the English
    "%b %d"; an empty string fails on `regex_date[0]`.
  */
  function ParseBirthdayDate(dutch: MonthNames, english: MonthNames, s: string, year: nat): (r: Result<Date>)
    ensures s == [] ==> r == Err(IndexOutOfRange)
    ensures r.Ok? ==> IsValid(r.value) && r.value.year == year
    ensures s != [] && IsDigit(s[0]) && r.Ok? ==>
      exists i, j :: DayMonthSplit(dutch, s, i, j) && DayField(s[..i]) == Some(r.value.day)
                     && MonthNumber(dutch, s[j..]) == Some(r.value.month)
    ensures s != [] && !IsDigit(s[0]) && r.Ok? ==>
      exists i, j :: MonthDaySplit(english, s, i, j) && MonthNumber(english, s[..i]) == Some(r.value.month)
                     && DayField(s[j..]) == Some(r.value.day)
  {
    if s == [] then Err(IndexOutOfRange)
    else if IsDigit(s[0]) then
      var r := ParseDayMonth(dutch, s, year);
      if r.Ok? then ParseDayMonthShape(dutch, s, year); r else r
    else
      var r := ParseMonthDay(english, s, year);
      if r.Ok? then ParseMonthDayShape(english, s, year); r else r
  }

  /**
    Which format a birthday date is read with: a text starting with a digit
    and of the "%d %b" shape in Dutch, any other text of the "%b %d" shape
    in English, each giving its day and month in `year`.
  */
  lemma ParseBirthdayDateAccepts(dutch: MonthNames, english: MonthNames, s: string, year: nat, i: nat, j: nat)
    ensures s != [] && IsDigit(s[0]) && DayMonthSplit(dutch, s, i, j) ==>
      ParseBirthdayDate(dutch, english, s, year) == DayMonthIn(year, MonthNumber(dutch, s[j..]).value, DayField(s[..i]).value)
    ensures s != [] && !IsDigit(s[0]) && MonthDaySplit(english, s, i, j) ==>
      ParseBirthdayDate(dutch, english, s, year) == DayMonthIn(year, MonthNumber(english, s[..i]).value, DayField(s[j..]).value)
  {
    if s != [] && IsDigit(s[0]) && DayMonthSplit(dutch, s, i, j) {
      ParseDayMonthAccepts(dutch, s, year, i, j);
    }
    if s != [] && !IsDigit(s[0]) && MonthDaySplit(english, s, i, j) {
      ParseMonthDayAccepts(english, s, year, i, j);
    }
  }
}
