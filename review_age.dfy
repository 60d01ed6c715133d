/**
 * The age of a review as Google Maps prints it in Spanish ("Hace 2 semanas"),
 * turned into a number of days before the scrape, a review date and a
 * precision (discovery/review_age.py).
 *
 * Dates are day numbers: the scrape date and today's date come in already
 * converted, so a review date is a plain subtraction.
 */
module ReviewAges {
  import opened Text
  import opened PyValues

  const ZeroDayUnits: set<string> := {"minutos", "minuta", "secundos", "hora", "horas"}
  const DayUnits: set<string> := {"día", "días"}
  const WeekUnits: set<string> := {"semana", "semanas"}
  const MonthUnits: set<string> := {"mes", "meses"}
  const YearUnits: set<string> := {"año", "años"}

  /** Days a unit word stands for, if the code knows the word. */
  function UnitFactor(unit: string): (r: Option<int>)
    ensures r.Some? <==> unit in ZeroDayUnits + DayUnits + WeekUnits + MonthUnits + YearUnits
  {
    if unit in ZeroDayUnits then Some(0)
    else if unit in DayUnits then Some(1)
    else if unit in WeekUnits then Some(7)
    else if unit in MonthUnits then Some(30)
    else if unit in YearUnits then Some(365)
    else None
  }

  /** `int(numeral) * factor`, with `int()`'s failure as a ValueError. */
  function Scaled(numeral: string, factor: int): (r: Result<int>)
    ensures ParseInt(numeral).Some? <==> r.Ok?
    ensures r.Ok? ==> r.value == ParseInt(numeral).value * factor
  {
    match ParseInt(numeral)
    case Some(v) => Ok(v * factor)
    case None => Err(ValueError("invalid literal for int() with base 10: '" + numeral + "'"))
  }

  /**
   * The branches of `str_es_to_days_before_scrape` on the lower-cased words, exactly
   * as written: note that "una semana" gives 1, not 7.
   */
  function EsWordsToDaysAsWritten(words: seq<string>): (r: Result<int>)
    ensures r.Ok? ==> |words| >= 3 && words[0] == "hace" && UnitFactor(words[2]).Some?
    ensures |words| >= 3 && words[0] == "hace" && words[2] in ZeroDayUnits ==> r == Ok(0)
    ensures |words| >= 3 && words[0] == "hace" && UnitFactor(words[2]).None? ==>
      r == Err(ValueError("Unknown age unit: " + words[2]))
  {
    if |words| == 0 then Err(IndexError)
    else if words[0] != "hace" then Err(AssertionError)
    else if |words| < 3 then Err(IndexError)
    else
      var numeral, unit := words[1], words[2];
      if unit in ZeroDayUnits then Ok(0)
      else if unit in DayUnits then (if numeral == "un" then Ok(1) else Scaled(numeral, 1))
      else if unit in WeekUnits then (if numeral == "una" then Ok(1) else Scaled(numeral, 7))
      else if unit in MonthUnits then (if numeral == "un" then Ok(30) else Scaled(numeral, 30))
      else if unit in YearUnits then (if numeral == "un" then Ok(365) else Scaled(numeral, 365))
      else Err(ValueError("Unknown age unit: " + unit))
  }

  /** The article a unit takes in "hace un día", "hace una semana", ... */
  function Article(unit: string): string {
    if unit in WeekUnits then "una" else "un"
  }

  /** The words of the age text: lower-cased, split on single spaces. */
  function AgeWords(s: string): (r: seq<string>)
    ensures |r| >= 1
  {
    SplitOn(Lower(s), ' ')
  }

  /** `str_es_to_days_before_scrape` as written. */
  function StrEsToDaysAsWritten(s: string): Result<int> {
    EsWordsToDaysAsWritten(AgeWords(s))
  }

  /** The corrected parse: "una semana" is seven days. */
  function EsWordsToDays(words: seq<string>): (r: Result<int>)
    ensures r.Ok? ==> |words| >= 3 && words[0] == "hace" && UnitFactor(words[2]).Some?
  {
    if |words| >= 3 && words[0] == "hace" && words[1] == "una" && words[2] in WeekUnits then Ok(7)
    else EsWordsToDaysAsWritten(words)
  }

  // ---------------------------------------------------------------------------
  // The discrepancy and its correction

  /** As written, "hace una semana" is one day old while "hace 1 semana" is seven. */
  lemma UnaSemanaAsWritten()
    ensures EsWordsToDaysAsWritten(["hace", "una", "semana"]) == Ok(1)
    ensures EsWordsToDaysAsWritten(["hace", "1", "semana"]) == Ok(7)
  {
    ParseOne();
  }

  lemma ParseOne()
    ensures ParseInt("1") == Some(1)
  {
    ParseIntToString(1);
    assert IntToString(1) == [DigitChar(1)] == "1";
  }

  /** After the correction, the article means one unit, for every unit the code knows. */
  lemma ArticleMeansOne(unit: string)
    requires unit in DayUnits + WeekUnits + MonthUnits + YearUnits
    ensures EsWordsToDays(["hace", Article(unit), unit]) == EsWordsToDays(["hace", "1", unit])
    ensures EsWordsToDays(["hace", Article(unit), unit]) == Ok(UnitFactor(unit).value)
  {
    ParseOne();
  }

  /** The correction changes nothing but "una semana(s)". */
  lemma CorrectionIsLocal(words: seq<string>)
    requires !(|words| >= 3 && words[1] == "una" && words[2] in WeekUnits)
    ensures EsWordsToDays(words) == EsWordsToDaysAsWritten(words)
  {
  }

  // ---------------------------------------------------------------------------
  // Properties of the parse

  /** Upper and lower case make no difference. */
  lemma CaseInsensitive(s: string)
    ensures StrEsToDaysAsWritten(Lower(s)) == StrEsToDaysAsWritten(s)
  {
    LowerIdempotent(s);
  }

  /** The text "hace N <unit>" parses to N times the unit's days, for any integer N. */
  lemma EsAgeRoundTrip(n: int, unit: string)
    requires unit in DayUnits + WeekUnits + MonthUnits + YearUnits
    requires IsLower(unit) && ' ' !in unit
    ensures StrEsToDaysAsWritten("hace " + IntToString(n) + " " + unit) == Ok(n * UnitFactor(unit).value)
  {
    AgeTextWords(n, unit);
    NumeralHasNoSpace(n);
    NumeralWords(IntToString(n), unit);
    ParseIntToString(n);
  }

  /** With a numeral in place of the article, the count is the numeral times the unit. */
  lemma NumeralWords(numeral: string, unit: string)
    requires unit in DayUnits + WeekUnits + MonthUnits + YearUnits
    requires numeral != "un" && numeral != "una"
    ensures EsWordsToDaysAsWritten(["hace", numeral, unit]) == Scaled(numeral, UnitFactor(unit).value)
  {
    var words := ["hace", numeral, unit];
    assert words[1] == numeral && words[2] == unit;
    assert unit !in ZeroDayUnits;
    if unit in DayUnits {
      assert UnitFactor(unit) == Some(1);
    } else if unit in WeekUnits {
      assert UnitFactor(unit) == Some(7);
    } else if unit in MonthUnits {
      assert UnitFactor(unit) == Some(30);
    } else {
      assert UnitFactor(unit) == Some(365);
    }
  }

  /** Three lower-case words without spaces, joined by single spaces, split back into themselves. */
  lemma ThreeAgeWords(a: string, b: string, c: string)
    requires IsLower(a) && IsLower(b) && IsLower(c)
    requires ' ' !in a && ' ' !in b && ' ' !in c
    ensures AgeWords(a + " " + b + " " + c) == [a, b, c]
  {
    var words := [a, b, c];
    var s := a + " " + b + " " + c;
    assert s == Join(" ", words) by {
      assert words[1..] == [b, c];
      assert [b, c][1..] == [c];
      assert Join(" ", [b, c]) == b + " " + c;
    }
    assert IsLower(" ");
    LowerConcat(a, " ");
    LowerConcat(a + " ", b);
    LowerConcat(a + " " + b, " ");
    LowerConcat(a + " " + b + " ", c);
    LowerOfLower(s);
    forall i | 0 <= i < |words| ensures ' ' !in words[i] {
    }
    SplitOnJoin(words, ' ');
  }

  /** "hace N <unit>" splits back into its three words. */
  lemma AgeTextWords(n: int, unit: string)
    requires IsLower(unit) && ' ' !in unit
    ensures AgeWords("hace " + IntToString(n) + " " + unit) == ["hace", IntToString(n), unit]
  {
    NumeralHasNoSpace(n);
    assert IsLower("hace");
    ThreeAgeWords("hace", IntToString(n), unit);
    assert "hace " + IntToString(n) == "hace" + " " + IntToString(n);
  }

  lemma NumeralHasNoSpace(n: int)
    ensures ' ' !in IntToString(n) && IsLower(IntToString(n))
    ensures IntToString(n) != "un" && IntToString(n) != "una" && IntToString(n) != "hace"
  {
    IntToStringIsLower(n);
    var s := IntToString(n);
    var d := NatToString(if n < 0 then -n else n);
    assert d[0] in d;
    assert s[0] != 'u' && s[0] != 'h';
    if n < 0 {
      assert s == "-" + d;
      forall i | 0 <= i < |s| ensures s[i] != ' ' {
        if i > 0 { assert s[i] == d[i - 1]; assert s[i] in d; }
      }
    } else {
      forall i | 0 <= i < |s| ensures s[i] != ' ' {
        assert s[i] in d;
      }
    }
  }

  /** A successful parse means the text began, in any case, with "hace ". */
  lemma ParsedStartsWithHace(s: string)
    requires StrEsToDaysAsWritten(s).Ok?
    ensures |s| >= 5 && Lower(s)[..5] == "hace "
  {
    var words := AgeWords(s);
    JoinSplitOn(Lower(s), ' ');
    assert Join(" ", words) == "hace" + " " + Join(" ", words[1..]);
    assert Lower(s) == "hace " + Join(" ", words[1..]);
  }

  /** Texts with fewer than three words, or not opening with "hace", are errors. */
  lemma MalformedIsError(s: string)
    ensures AgeWords(s)[0] != "hace" ==> StrEsToDaysAsWritten(s) == Err(AssertionError)
    ensures AgeWords(s)[0] == "hace" && |AgeWords(s)| < 3 ==> StrEsToDaysAsWritten(s) == Err(IndexError)
  {
  }

  // ---------------------------------------------------------------------------
  // string_to_days, get_precision and the review-age record

  /**
   * `string_to_days`: Spanish texts are parsed as written ("una semana" is one day);
   * English would call a method the class does not have; any other language falls
   * through to `None`.
   */
  function StringToDays(s: string, language: string): (r: Result<Option<int>>)
    ensures language == "ES" ==> (r.Ok? <==> StrEsToDaysAsWritten(s).Ok?)
    ensures language == "ES" && r.Ok? ==> r.value == Some(StrEsToDaysAsWritten(s).value)
    ensures language == "EN" ==> r == Err(AttributeError("str_en_to_days_before_scrape"))
    ensures language != "ES" && language != "EN" ==> r == Ok(None)
  {
    if language == "ES" then
      match StrEsToDaysAsWritten(s)
      case Ok(d) => Ok(Some(d))
      case Err(e) => Err(e)
    else if language == "EN" then Err(AttributeError("str_en_to_days_before_scrape"))
    else Ok(None)
  }

  /** `get_precision`: the granularity, in days, of an age of `days` days. */
  function Precision(days: int): (p: int)
    ensures p in {0, 1, 7, 30, 365}
    ensures p == 0 <==> days == 0
  {
    if days == 0 then 0
    else if days < 7 then 1
    else if days < 30 then 7
    else if days < 365 then 30
    else 365
  }

  /** A non-negative age is never finer than its own precision. */
  lemma PrecisionAtMostDays(days: nat)
    ensures Precision(days) <= days
    ensures days >= 365 ==> Precision(days) == 365
  {
  }

  /** Older reviews never get a finer precision. */
  lemma PrecisionMonotone(a: nat, b: nat)
    requires a <= b
    ensures Precision(a) <= Precision(b)
  {
  }

  /** An age parsed from "hace N <unit>" with N at least 1 has at least the unit's precision. */
  lemma PrecisionOfUnit(n: int, unit: string)
    requires unit in DayUnits + WeekUnits + MonthUnits + YearUnits
    requires n >= 1
    ensures Precision(n * UnitFactor(unit).value) >= UnitFactor(unit).value
  {
    var f := UnitFactor(unit).value;
    assert n * f >= f;
    PrecisionMonotone(f, n * f);
  }

  datatype ReviewAge = ReviewAge(
    scrapeDay: int,
    stringRepr: string,
    language: string,
    daysBeforeScrape: int,
    reviewDay: int,
    ageInDays: int,
    precision: int)

  /**
   * `ReviewAge(scrape_ds, string_repr, language)`, with the scrape date and today
   * as day numbers. A language without a parser leaves `None` days, which the
   * date arithmetic rejects with a TypeError.
   */
  function NewReviewAge(scrapeDay: int, s: string, language: string, today: int): (r: Result<ReviewAge>)
    ensures r.Ok? <==> StringToDays(s, language).Ok? && StringToDays(s, language).value.Some?
    ensures r.Ok? ==>
      var a := r.value;
      a.daysBeforeScrape == StringToDays(s, language).value.value
      && a.reviewDay == scrapeDay - a.daysBeforeScrape
      && a.ageInDays == today - a.reviewDay
      && a.precision == Precision(a.daysBeforeScrape)
      && a.scrapeDay == scrapeDay && a.stringRepr == s && a.language == language
  {
    match StringToDays(s, language)
    case Err(e) => Err(e)
    case Ok(None) => Err(TypeError)
    case Ok(Some(days)) =>
      var reviewDay := scrapeDay - days;
      Ok(ReviewAge(scrapeDay, s, language, days, reviewDay, today - reviewDay, Precision(days)))
  }

  /**
   * "hace N <unit>" scraped on day D: the review is dated D - N * unit, and its age
   * today is the time since the scrape plus those days.
   */
  lemma ReviewAgeOfText(scrapeDay: int, n: int, unit: string, today: int)
    requires unit in DayUnits + WeekUnits + MonthUnits + YearUnits
    requires IsLower(unit) && ' ' !in unit
    ensures var r := NewReviewAge(scrapeDay, "hace " + IntToString(n) + " " + unit, "ES", today);
      r.Ok?
      && r.value.reviewDay == scrapeDay - n * UnitFactor(unit).value
      && r.value.ageInDays == (today - scrapeDay) + n * UnitFactor(unit).value
  {
    EsAgeRoundTrip(n, unit);
  }

  /** As written, "hace una semana" is one day before the scrape. */
  lemma UnaSemanaDays()
    ensures StrEsToDaysAsWritten("hace una semana") == Ok(1)
  {
    assert IsLower("hace") && IsLower("una") && IsLower("semana");
    ThreeAgeWords("hace", "una", "semana");
    assert "hace" + " " + "una" + " " + "semana" == "hace una semana";
    UnaSemanaAsWritten();
  }

  /** Hours count as the day of the scrape. */
  lemma HorasDays()
    ensures StrEsToDaysAsWritten("hace 3 horas") == Ok(0)
  {
    assert IsLower("hace") && IsLower("3") && IsLower("horas");
    ThreeAgeWords("hace", "3", "horas");
    assert "hace" + " " + "3" + " " + "horas" == "hace 3 horas";
  }

  /** The zero-day units are spelt "secundos", so a text in "segundos" is an unknown unit. */
  lemma SegundosUnknown()
    ensures StrEsToDaysAsWritten("hace 2 segundos") == Err(ValueError("Unknown age unit: segundos"))
  {
    SegundosWords();
    assert IsLower("hace") && IsLower("2") && IsLower("segundos");
    ThreeAgeWords("hace", "2", "segundos");
    assert "hace" + " " + "2" + " " + "segundos" == "hace 2 segundos";
  }

  lemma SegundosWords()
    ensures EsWordsToDaysAsWritten(["hace", "2", "segundos"]) == Err(ValueError("Unknown age unit: segundos"))
  {
    assert "segundos"[1] == 'e';
    assert UnitFactor("segundos") == None;
    assert "Unknown age unit: " + "segundos" == "Unknown age unit: segundos";
  }

  /** As written, a review "hace una semana" is dated one day before the scrape, with day precision. */
  lemma UnaSemanaReviewAge(scrapeDay: int, today: int)
    ensures var r := NewReviewAge(scrapeDay, "hace una semana", "ES", today);
      r.Ok? && r.value.daysBeforeScrape == 1 && r.value.reviewDay == scrapeDay - 1 && r.value.precision == 1
  {
    UnaSemanaDays();
  }
}
