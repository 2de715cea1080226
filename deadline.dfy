/** The relative-deadline parser of `Project#pledge_deadline` for a listing
    node: the last stats item reads "N hours left", "N days left",
    "N minutes left" or "<strong>Funded</strong> <date>", and is turned into a
    calendar day relative to the observation instant. Instants are seconds
    since the epoch and days are day numbers since the epoch, both in UTC. */
module Deadline {
  import opened RubyText

  const SecondsPerDay: int := 86400
  const SecondsPerHour: int := 3600
  const SecondsPerMinute: int := 60

  /** The calendar day of an instant (`Date.parse(time.to_s)`). */
  function DayOf(t: int): int
  {
    t / SecondsPerDay
  }

  /** A parsed deadline: a day number, or the text after the Funded marker,
      which `Date.parse` reads as a free-form date (not modelled). */
  datatype Deadline = OnDay(day: int) | FundedOn(dateText: string)

  /** The four branches of the parser, and the fall-through. */
  datatype Shape = Funded | HoursLeft | DaysLeft | MinutesLeft | Unrecognised

  const FundedMarker: string := "<strong>Funded</strong>"

  /** Which branch the text takes; the first test that matches wins. */
  function ShapeOf(text: string): (r: Shape)
    ensures r == Funded <==> Contains(text, "Funded")
    ensures r == HoursLeft <==> (!Contains(text, "Funded")
      && (Contains(text, "hour left") || Contains(text, "hours left")))
    ensures r == DaysLeft <==> (!Contains(text, "Funded") && !Contains(text, "hour left") && !Contains(text, "hours left")
      && Contains(text, "days left"))
    ensures r == MinutesLeft <==> (!Contains(text, "Funded") && !Contains(text, "hour left") && !Contains(text, "hours left")
      && !Contains(text, "days left") && (Contains(text, "minute left") || Contains(text, "minutes left")))
    ensures r == Unrecognised <==> (!Contains(text, "Funded") && !Contains(text, "hour left") && !Contains(text, "hours left")
      && !Contains(text, "days left") && !Contains(text, "minute left") && !Contains(text, "minutes left"))
  {
    if Contains(text, "Funded") then Funded
    else if Contains(text, "hour left") || Contains(text, "hours left") then HoursLeft
    else if Contains(text, "days left") then DaysLeft
    else if Contains(text, "minute left") || Contains(text, "minutes left") then MinutesLeft
    else Unrecognised
  }

  /** The first run of digits in s (`/\d+/`), if there is one. */
  function FirstDigitRun(s: string): (r: Option<string>)
    ensures r.Some? <==> exists i :: 0 <= i < |s| && IsDigit(s[i])
    ensures r.Some? ==> r.value != [] && AllDigits(r.value)
  {
    if s == [] then None
    else if IsDigit(s[0]) then Some(LeadingDigits(s))
    else
      var r := FirstDigitRun(s[1..]);
      assert forall i :: 0 < i < |s| ==> s[i] == s[1..][i - 1];
      r
  }

  /** s has no decimal digit. */
  predicate NoDigitIn(s: string)
  {
    forall k :: 0 <= k < |s| ==> !IsDigit(s[k])
  }

  /** `/\d+/` finds the digits after a digit-free prefix, up to the first
      character that is not a digit. */
  lemma {:induction false} FirstDigitRunAfter(pre: string, d: string, rest: string)
    requires NoDigitIn(pre) && d != [] && AllDigits(d)
    requires rest == [] || !IsDigit(rest[0])
    ensures FirstDigitRun(pre + d + rest) == Some(d)
  {
    var s := pre + d + rest;
    if pre == [] {
      assert s == d + rest;
      LeadingDigitsOf(d, rest);
    } else {
      assert s[1..] == pre[1..] + d + rest;
      FirstDigitRunAfter(pre[1..], d, rest);
    }
  }

  /** Every text with a digit is a digit-free prefix, a digit run, and a
      rest that does not start with a digit; so `FirstDigitRunAfter`
      determines `FirstDigitRun` on every text with a digit. */
  lemma {:induction false} DigitRunSplit(s: string) returns (pre: string, d: string, rest: string)
    requires exists i :: 0 <= i < |s| && IsDigit(s[i])
    ensures s == pre + d + rest && NoDigitIn(pre) && d != [] && AllDigits(d)
    ensures rest == [] || !IsDigit(rest[0])
  {
    if IsDigit(s[0]) {
      pre, d, rest := [], LeadingDigits(s), s[|LeadingDigits(s)|..];
      assert s == d + rest;
    } else {
      assert exists i :: 0 <= i < |s[1..]| && IsDigit(s[1..][i]) by {
        var i :| 0 <= i < |s| && IsDigit(s[i]);
        assert i > 0 && s[1..][i - 1] == s[i];
      }
      var p;
      p, d, rest := DigitRunSplit(s[1..]);
      pre := [s[0]] + p;
      assert s == [s[0]] + s[1..];
    }
  }

  /** The count of a phrase is the value of its first digit run, wherever
      that run starts. */
  lemma CountAfter(pre: string, d: string, rest: string)
    requires NoDigitIn(pre) && d != [] && AllDigits(d)
    requires rest == [] || !IsDigit(rest[0])
    ensures Count(pre + d + rest) == Ok(DigitsValue(d))
  {
    FirstDigitRunAfter(pre, d, rest);
    ToIOfDigits(d, []);
    assert d + [] == d;
  }

  /** `text.match(/\d+/)[0].to_i`: the count in the phrase; nil has no `[]`,
      so a phrase without digits raises. */
  function Count(text: string): (r: Result<int>)
    ensures r.Ok? <==> exists i :: 0 <= i < |text| && IsDigit(text[i])
    ensures r.Ok? ==> r.value >= 0
  {
    match FirstDigitRun(text)
    case None => Err(NoMethodError)
    case Some(run) =>
      ToIOfDigits(run, []);
      assert run + [] == run;
      Ok(ToI(run))
  }

  /** The `Funded` branch: the text after the last Funded marker, stripped;
      nil (and so NoMethodError on `strip`) when nothing non-empty follows a
      marker. */
  function FundedDeadline(text: string): (r: Result<Option<Deadline>>)
    ensures r.Err? ==> r == Err(NoMethodError)
    ensures r.Ok? ==> r.value.Some? && r.value.value.FundedOn? && Stripped(r.value.value.dateText)
  {
    match LastField(text, FundedMarker)
    case None => Err(NoMethodError)
    case Some(field) => Ok(Some(FundedOn(Strip(field))))
  }

  /** The day a relative phrase with count n points to, seen at `now`: hours
      and minutes are added to the instant, days to the calendar date. */
  function DayAfter(shape: Shape, n: nat, now: int): (day: int)
    requires shape == HoursLeft || shape == DaysLeft || shape == MinutesLeft
    ensures day >= DayOf(now)
  {
    match shape
    case HoursLeft => DivMonotone(now, now + n * SecondsPerHour); DayOf(now + n * SecondsPerHour)
    case DaysLeft => DayOf(now) + n
    case MinutesLeft => DivMonotone(now, now + n * SecondsPerMinute); DayOf(now + n * SecondsPerMinute)
  }

  lemma DivMonotone(a: int, b: int)
    requires a <= b
    ensures DayOf(a) <= DayOf(b)
  {
  }

  /** The deadline of a listing node, relative to the instant `now`:
      nil (None) when no branch matches. */
  function ParseDeadline(text: string, now: int): (r: Result<Option<Deadline>>)
    ensures r.Ok? && r.value.Some? && r.value.value.OnDay? ==> r.value.value.day >= DayOf(now)
    ensures ShapeOf(text) == Unrecognised <==> r == Ok(None)
  {
    var shape := ShapeOf(text);
    if shape == Funded then FundedDeadline(text)
    else if shape == Unrecognised then Ok(None)
    else
      match Count(text)
      case Err(e) => Err(e)
      case Ok(n) => Ok(Some(OnDay(DayAfter(shape, n, now))))
  }

  // ------------------------------------------------------------ lemmas

  lemma ContainsAt(s: string, pat: string, i: nat)
    requires OccursAt(s, pat, i)
    ensures Contains(s, pat)
  {
  }

  lemma {:induction false} LettersNotInDecimal(n: nat, c: char)
    requires !IsDigit(c)
    ensures c !in Decimal(n)
  {
  }

  lemma CharsOf(d: string, unit: string, c: char)
    requires c !in d && c !in unit
    ensures c !in d + unit
  {
  }

  /** The count of "N <unit>" is N. */
  lemma {:induction false} CountOfPhrase(n: nat, unit: string)
    requires unit != [] && unit[0] == ' '
    ensures Count(Decimal(n) + unit) == Ok(n)
  {
    var d := Decimal(n);
    var s := d + unit;
    assert s[0] == d[0];
    LeadingDigitsOf(d, unit);
    assert FirstDigitRun(s) == Some(d);
    ToIOfDigits(d, []);
    assert d + [] == d;
    DecimalRoundTrip(n);
  }

  lemma PhraseHas(n: nat, unit: string, pat: string)
    requires unit == " " + pat
    ensures Contains(Decimal(n) + unit, pat)
  {
    var s := Decimal(n) + unit;
    var i := |Decimal(n)| + 1;
    assert s[i..i + |pat|] == pat;
    ContainsAt(s, pat, i);
  }

  /** Letters that are in neither the count nor the unit are not in the phrase. */
  lemma UnitLetters(n: nat, unit: string, letters: string)
    requires forall c :: c in letters ==> !IsDigit(c) && c !in unit
    ensures forall c :: c in letters ==> c !in Decimal(n) + unit
  {
    forall c | c in letters
      ensures c !in Decimal(n) + unit
    {
      LettersNotInDecimal(n, c);
    }
  }

  /** The days branch is taken when the text has no 'F' or 'h' (so no earlier
      test can match) and "days left" matches. */
  lemma DaysBranch(t: string)
    requires 'F' !in t && 'h' !in t && Contains(t, "days left")
    ensures ShapeOf(t) == DaysLeft
  {
    MissingCharNotContained(t, "Funded", 'F');
    MissingCharNotContained(t, "hour left", 'h');
    MissingCharNotContained(t, "hours left", 'h');
  }

  /** The hours branch is taken when the text has no 'F' and an hours phrase
      matches. */
  lemma HoursBranch(t: string)
    requires 'F' !in t && (Contains(t, "hour left") || Contains(t, "hours left"))
    ensures ShapeOf(t) == HoursLeft
  {
    MissingCharNotContained(t, "Funded", 'F');
  }

  /** The minutes branch is taken when the text has no 'F', 'h' or 'd' and a
      minutes phrase matches. */
  lemma MinutesBranch(t: string)
    requires 'F' !in t && 'h' !in t && 'd' !in t
    requires Contains(t, "minute left") || Contains(t, "minutes left")
    ensures ShapeOf(t) == MinutesLeft
  {
    MissingCharNotContained(t, "Funded", 'F');
    MissingCharNotContained(t, "hour left", 'h');
    MissingCharNotContained(t, "hours left", 'h');
    MissingCharNotContained(t, "days left", 'd');
  }

  /** No branch is taken by a text without 'F', 'h', 's' and 'm'. */
  lemma NoBranch(t: string)
    requires 'F' !in t && 'h' !in t && 's' !in t && 'm' !in t
    ensures ShapeOf(t) == Unrecognised
  {
    MissingCharNotContained(t, "Funded", 'F');
    MissingCharNotContained(t, "hour left", 'h');
    MissingCharNotContained(t, "hours left", 'h');
    MissingCharNotContained(t, "days left", 's');
    MissingCharNotContained(t, "minute left", 'm');
    MissingCharNotContained(t, "minutes left", 'm');
  }

  /** A relative phrase with a count parses to the day that count points to. */
  lemma RelativeParse(text: string, now: int, shape: Shape, n: nat)
    requires shape == HoursLeft || shape == DaysLeft || shape == MinutesLeft
    requires ShapeOf(text) == shape && Count(text) == Ok(n)
    ensures ParseDeadline(text, now) == Ok(Some(OnDay(DayAfter(shape, n, now))))
  {
  }

  /** "N days left" is N calendar days after today. */
  lemma DaysLeftPhrase(n: nat, text: string, now: int)
    requires text == Decimal(n) + " days left"
    ensures ParseDeadline(text, now) == Ok(Some(OnDay(DayOf(now) + n)))
  {
    var unit := " days left";
    UnitLetters(n, unit, "Fh");
    PhraseHas(n, unit, "days left");
    DaysBranch(text);
    CountOfPhrase(n, unit);
    RelativeParse(text, now, DaysLeft, n);
  }

  /** "N hours left" (or "N hour left") is the day of now + N hours. */
  lemma HoursLeftPhrase(n: nat, unit: string, text: string, now: int)
    requires unit == " hours left" || unit == " hour left"
    requires text == Decimal(n) + unit
    ensures ParseDeadline(text, now) == Ok(Some(OnDay(DayOf(now + n * SecondsPerHour))))
  {
    UnitLetters(n, unit, "F");
    if unit == " hours left" {
      PhraseHas(n, unit, "hours left");
    } else {
      PhraseHas(n, unit, "hour left");
    }
    HoursBranch(text);
    CountOfPhrase(n, unit);
    RelativeParse(text, now, HoursLeft, n);
  }

  /** "N minutes left" (or "N minute left") is the day of now + N minutes. */
  lemma MinutesLeftPhrase(n: nat, unit: string, text: string, now: int)
    requires unit == " minutes left" || unit == " minute left"
    requires text == Decimal(n) + unit
    ensures ParseDeadline(text, now) == Ok(Some(OnDay(DayOf(now + n * SecondsPerMinute))))
  {
    UnitLetters(n, unit, "Fhd");
    if unit == " minutes left" {
      PhraseHas(n, unit, "minutes left");
    } else {
      PhraseHas(n, unit, "minute left");
    }
    MinutesBranch(text);
    CountOfPhrase(n, unit);
    RelativeParse(text, now, MinutesLeft, n);
  }

  /** The singular "N day left" matches no branch, so the deadline is nil. */
  lemma DayLeftSingularIsNil(n: nat, text: string, now: int)
    requires text == Decimal(n) + " day left"
    ensures ParseDeadline(text, now) == Ok(None)
  {
    UnitLetters(n, " day left", "Fhsm");
    NoBranch(text);
  }

  /** The only Funded marker in "<strong>Funded</strong> <date>" is at the
      front, so the last field is the text after it. */
  lemma FundedField(date: string)
    requires '<' !in date
    ensures LastField(FundedMarker + " " + date, FundedMarker) == Some(" " + date)
  {
    var tail := " " + date;
    CharsOf(" ", date, '<');
    MissingCharNotContained(tail, FundedMarker, '<');
    var head := [] + FundedMarker[..|FundedMarker| - 1];
    assert |head| < |FundedMarker|;
    assert FindFrom(head, FundedMarker, 0) == None;
    assert [] + FundedMarker + tail == FundedMarker + " " + date;
    LastFieldAfter([], FundedMarker, tail);
  }

  /** "<strong>Funded</strong> <date>" yields the date text, stripped. */
  lemma FundedPhrase(date: string, now: int)
    requires date != [] && Stripped(date) && '<' !in date
    ensures ParseDeadline(FundedMarker + " " + date, now) == Ok(Some(FundedOn(date)))
  {
    var s := FundedMarker + " " + date;
    assert s[8..14] == "Funded";
    ContainsAt(s, "Funded", 8);
    FundedField(date);
    StripPadded(" ", date, []);
    assert " " + date + [] == " " + date;
  }

  /** Examples: 2020-01-01T00:00:00Z is instant 1577836800, day
      18262 (2020-01-01); 2020-01-01T22:00Z is 1577916000 and 23:50Z is
      1577922600. */
  lemma TwoDaysLeftExample(text: string)
    requires text == "2 days left"
    ensures ParseDeadline(text, 1577836800) == Ok(Some(OnDay(18264)))
  {
    assert text == Decimal(2) + " days left" by {
      assert Decimal(2) == "2";
    }
    DaysLeftPhrase(2, text, 1577836800);
  }

  lemma FiveHoursLeftExample(text: string)
    requires text == "5 hours left"
    ensures ParseDeadline(text, 1577836800) == Ok(Some(OnDay(18262)))
    ensures ParseDeadline(text, 1577916000) == Ok(Some(OnDay(18263)))
  {
    assert text == Decimal(5) + " hours left" by {
      assert Decimal(5) == "5";
    }
    assert DayOf(1577836800 + 5 * SecondsPerHour) == 18262;
    assert DayOf(1577916000 + 5 * SecondsPerHour) == 18263;
    HoursLeftPhrase(5, " hours left", text, 1577836800);
    HoursLeftPhrase(5, " hours left", text, 1577916000);
  }

  lemma FortyFiveMinutesLeftExample(text: string)
    requires text == "45 minutes left"
    ensures ParseDeadline(text, 1577922600) == Ok(Some(OnDay(18263)))
  {
    assert text == Decimal(45) + " minutes left" by {
      assert Decimal(45) == "45";
    }
    assert DayOf(1577922600 + 45 * SecondsPerMinute) == 18263;
    MinutesLeftPhrase(45, " minutes left", text, 1577922600);
  }

  lemma OneDayLeftExample(text: string)
    requires text == "1 day left"
    ensures ParseDeadline(text, 1577836800) == Ok(None)
  {
    assert text == Decimal(1) + " day left" by {
      assert Decimal(1) == "1";
    }
    DayLeftSingularIsNil(1, text, 1577836800);
  }
}
