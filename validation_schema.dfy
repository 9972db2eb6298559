/** The market-creation form and the password-reset form: each field's tests
    as the form library runs them, in declaration order, and what it takes
    for a form to pass. A field left empty is `None`; number fields hold
    integers, and `0` is the one falsy number. */
module ValidationSchema {
  import opened Wrappers
  import opened Text
  import Series
  import Helper

  /** The messages of the two forms, one per test. */
  datatype Message =
    | MarketNameInvalid | MarketNameRequired
    | GroupFromRequired | GroupToRequired | GroupNotGreater | GroupSame
    | SeriesFromRequired | SeriesInvalid | SeriesToRequired | SeriesGapTooSmall | SeriesSame
    | NumberFromRequired | NumberToRequired | NumberNotGreater | NumberSame
    | TimerFromRequired | TimerToRequired | TimerNotLater
    | PriceRequired
    | OldPasswordRequired | NewPasswordRequired | NewPasswordSame | ConfirmMismatch | ConfirmRequired

  /** A number that JavaScript treats as true: present and not zero. */
  predicate Truthy(v: Option<int>)
  {
    v.Some? && v.value != 0
  }

  /** A string that JavaScript treats as true: present and not empty. */
  predicate Filled(v: Option<string>)
  {
    v.Some? && v.value != ""
  }

  function When(failed: bool, m: Message): seq<Message>
  {
    if failed then [m] else []
  }

  // ---------------------------------------------------------------------
  // Market name

  /** The class `[a-zA-Z0-9.:\s]`. */
  predicate NameChar(c: char)
  {
    'a' <= c <= 'z' || 'A' <= c <= 'Z' || IsDigit(c) || c == '.' || c == ':' || IsJsSpace(c)
  }

  /** The pattern `^[a-zA-Z0-9.:\s]+$`; an absent value is not tested. */
  predicate NameMatches(v: Option<string>)
  {
    v.None? || (v.value != "" && forall i :: 0 <= i < |v.value| ==> NameChar(v.value[i]))
  }

  function MarketNameErrors(v: Option<string>): seq<Message>
  {
    When(!NameMatches(v), MarketNameInvalid) + When(!Filled(v), MarketNameRequired)
  }

  lemma MarketNameRule(v: Option<string>)
    ensures MarketNameErrors(v) == []
            <==> v.Some? && v.value != "" && forall i :: 0 <= i < |v.value| ==> NameChar(v.value[i])
  {
  }

  // ---------------------------------------------------------------------
  // Groups and numbers

  /** `groupTo`: both comparisons are skipped when either side is falsy. */
  function GroupToErrors(from: Option<int>, to: Option<int>): seq<Message>
  {
    var skip := !Truthy(to) || !Truthy(from);
    When(to.None?, GroupToRequired)
    + When(!skip && !(from.value < to.value), GroupNotGreater)
    + When(!skip && from.value == to.value, GroupSame)
  }

  /** A group range passes exactly when `groupTo` is given and either side is
      0 or absent, or `groupFrom` is below it; in particular a `groupTo` of 0
      passes whatever `groupFrom` is. */
  lemma GroupRule(from: Option<int>, to: Option<int>)
    ensures GroupToErrors(from, to) == []
            <==> to.Some? && (to.value == 0 || !Truthy(from) || from.value < to.value)
    ensures GroupSame in GroupToErrors(from, to) ==> GroupNotGreater in GroupToErrors(from, to)
  {
  }

  /** `numberTo`: the order test is skipped only when `numberFrom` is falsy,
      and an absent `numberTo` then fails it; the sameness test is skipped
      when either side is falsy. */
  function NumberToErrors(from: Option<int>, to: Option<int>): seq<Message>
  {
    When(to.None?, NumberToRequired)
    + When(Truthy(from) && !(to.Some? && to.value > from.value), NumberNotGreater)
    + When(Truthy(from) && Truthy(to) && from.value == to.value, NumberSame)
  }

  lemma NumberRule(from: Option<int>, to: Option<int>)
    ensures NumberToErrors(from, to) == []
            <==> to.Some? && (!Truthy(from) || from.value < to.value)
    ensures NumberSame in NumberToErrors(from, to) ==> NumberNotGreater in NumberToErrors(from, to)
  {
  }

  /** The two ranges differ on a zero upper bound: a group range 5 to 0
      passes, a number range 5 to 0 does not. */
  lemma ZeroUpperBound()
    ensures GroupToErrors(Some(5), Some(0)) == []
    ensures NumberToErrors(Some(5), Some(0)) == [NumberNotGreater]
  {
  }

  // ---------------------------------------------------------------------
  // Series

  predicate AsciiLetter(c: char)
  {
    'a' <= c <= 'z' || 'A' <= c <= 'Z'
  }

  /** `/^[A-Za-z]+$/.test(value)`; an absent value is tested as the text
      "undefined", which is made of letters. */
  predicate SeriesLetters(v: Option<string>)
  {
    v.None? || (v.value != "" && forall i :: 0 <= i < |v.value| ==> AsciiLetter(v.value[i]))
  }

  function SeriesFromErrors(v: Option<string>): seq<Message>
  {
    When(!Filled(v), SeriesFromRequired) + When(!SeriesLetters(v), SeriesInvalid)
  }

  lemma SeriesFromRule(v: Option<string>)
    ensures SeriesFromErrors(v) == []
            <==> v.Some? && v.value != "" && forall i :: 0 <= i < |v.value| ==> AsciiLetter(v.value[i])
  {
  }

  /** `seriesTo`: the codes of the first characters are at least 10 apart,
      and the two differ; both skipped when either side is empty. */
  function SeriesToErrors(from: Option<string>, to: Option<string>): seq<Message>
  {
    var skip := !Filled(to) || !Filled(from);
    When(!Filled(to), SeriesToRequired)
    + When(!skip && to.value[0] as int - from.value[0] as int < 10, SeriesGapTooSmall)
    + When(!skip && from.value == to.value, SeriesSame)
  }

  /** A series range passes exactly when `seriesTo` is given and either
      `seriesFrom` is empty or the first characters are ten or more codes
      apart; the sameness test then never fails. */
  lemma SeriesRule(from: Option<string>, to: Option<string>)
    ensures SeriesToErrors(from, to) == []
            <==> Filled(to) && (!Filled(from) || to.value[0] as int - from.value[0] as int >= 10)
    ensures SeriesSame in SeriesToErrors(from, to) ==> SeriesGapTooSmall in SeriesToErrors(from, to)
  {
  }

  /** The gap is counted in character codes, so the letters the series
      picker skips count toward it: A to K passes, and F and I, inside the
      range, are not offered by the picker. */
  lemma SeriesGapCountsSkipped()
    ensures SeriesToErrors(Some("A"), Some("K")) == []
    ensures var offered := Helper.GenerateSeries("A", "K");
            && offered.Some?
            && (forall c :: c in offered.value <==> 'A' <= c <= 'K' && c != 'F' && c != 'I')
  {
    AToKPasses();
    PickerAToK();
  }

  lemma AToKPasses()
    ensures SeriesToErrors(Some("A"), Some("K")) == []
  {
  }

  lemma PickerAToK()
    ensures var offered := Helper.GenerateSeries("A", "K");
            && offered.Some?
            && (forall c :: c in offered.value <==> 'A' <= c <= 'K' && c != 'F' && c != 'I')
  {
    assert 'A' in Helper.Letters() && 'K' in Helper.Letters();
    Helper.SeriesAgrees('A', 'K');
    assert Helper.GenerateSeries("A", "K") == Some(Series.Alphabet('A', 'K'));
  }

  // ---------------------------------------------------------------------
  // Times

  /** A time of day as `new Date(0, 0, 0, hour, minute)` sets it. */
  datatype Time = Time(hour: nat, minute: nat)

  /** Dates on one baseline day compare by their minutes from its midnight;
      an hour past 23 runs on into the next days. */
  function Minutes(t: Time): nat
  {
    t.hour * 60 + t.minute
  }

  /** The 12-hour clock read as a 24-hour hour: 12 AM is 0, a PM hour other
      than 12 gains 12. */
  function ClockHour(h: nat, pm: bool): nat
  {
    if pm && h != 12 then h + 12 else if !pm && h == 12 then 0 else h
  }

  /** `AM` or `PM` in any letter case at the head of `r`; `Some(true)` for PM. */
  function Meridiem(r: string): Option<bool>
  {
    if |r| >= 2 && r[0] in "AaPp" && r[1] in "Mm" then Some(r[0] in "Pp") else None
  }

  /** `\s?(AM|PM)`: a white-space character is taken when the meridiem
      follows it; leaving it untaken puts white space where the meridiem must be. */
  function AfterMinutes(r: string): Option<bool>
  {
    if r != [] && IsJsSpace(r[0]) then Meridiem(r[1..]) else Meridiem(r)
  }

  /** `(\d+)\s?(AM|PM)` after the colon, with the hour already read. The
      digit run is taken whole: a shorter one leaves a digit where the
      meridiem must be. */
  function AfterHour(r: string, hour: nat): Option<Time>
  {
    var m := LeadingDigits(r);
    if m == [] then None
    else
      match AfterMinutes(r[|m|..])
      case None => None
      case Some(pm) => Some(Time(ClockHour(hour, pm), DigitsValue(m)))
  }

  /** `(\d+):(\d+)\s?(AM|PM)` at the head of `r`. */
  function MatchAt(r: string): Option<Time>
  {
    var h := LeadingDigits(r);
    if h == [] || |h| >= |r| || r[|h|] != ':' then None
    else AfterHour(r[|h| + 1..], DigitsValue(h))
  }

  /** The leftmost match from `p` on. */
  function SearchFrom(s: string, p: nat): Option<Time>
    requires p <= |s|
    decreases |s| - p
  {
    if p == |s| then None
    else if MatchAt(s[p..]).Some? then MatchAt(s[p..])
    else SearchFrom(s, p + 1)
  }

  /** `parseTime`: `None` where it returns `null`. */
  function ParseTime(s: string): Option<Time>
  {
    SearchFrom(s, 0)
  }

  /** `timerTo`: skipped when either time is empty, failed when either does
      not parse, passed when the end is strictly later. */
  predicate TimerLater(from: Option<string>, to: Option<string>)
  {
    if !Filled(to) || !Filled(from) then true
    else
      var start := ParseTime(from.value);
      var end := ParseTime(to.value);
      start.Some? && end.Some? && Minutes(end.value) > Minutes(start.value)
  }

  function TimerToErrors(from: Option<string>, to: Option<string>): seq<Message>
  {
    When(!Filled(to), TimerToRequired) + When(!TimerLater(from, to), TimerNotLater)
  }

  function TimerFromErrors(v: Option<string>): seq<Message>
  {
    When(!Filled(v), TimerFromRequired)
  }

  /** The text the timer picker shows: hour, two-digit minute, an optional
      space and the meridiem. */
  function TimeText(h: nat, m: nat, space: bool, meridiem: string): string
  {
    NatDigits(h) + (":" + (PadStart(NatDigits(m), 2, '0') + ((if space then " " else "") + meridiem)))
  }

  lemma {:induction false} LeadingDigitsBefore(d: string, rest: string)
    requires AllDigits(d)
    requires rest == [] || !IsDigit(rest[0])
    ensures LeadingDigits(d + rest) == d
    decreases |d|
  {
    if d != [] {
      assert (d + rest)[1..] == d[1..] + rest;
      LeadingDigitsBefore(d[1..], rest);
    } else {
      assert d + rest == rest;
    }
  }

  lemma PaddedValue(m: nat)
    ensures AllDigits(PadStart(NatDigits(m), 2, '0'))
    ensures DigitsValue(PadStart(NatDigits(m), 2, '0')) == m
  {
    var d := NatDigits(m);
    var p := PadStart(d, 2, '0');
    assert p == seq(|p| - |d|, _ => '0') + d;
    DigitsValueLeadingZeros(|p| - |d|, d);
    DigitsValueOfNatDigits(m);
  }

  lemma LetterNotSpace(c: char)
    requires 'A' <= c <= 'z'
    ensures !IsJsSpace(c)
  {
  }

  lemma MeridiemText(sp: string, meridiem: string)
    requires sp == "" || sp == " "
    requires |meridiem| == 2 && meridiem[0] in "AaPp" && meridiem[1] in "Mm"
    ensures AfterMinutes(sp + meridiem) == Some(meridiem[0] in "Pp")
  {
    LetterNotSpace(meridiem[0]);
    if sp == " " {
      assert (sp + meridiem)[1..] == meridiem;
    } else {
      assert sp + meridiem == meridiem;
    }
  }

  lemma AfterHourText(md: string, tail: string, hour: nat, pm: bool)
    requires md != [] && AllDigits(md)
    requires tail == [] || !IsDigit(tail[0])
    requires AfterMinutes(tail) == Some(pm)
    ensures AfterHour(md + tail, hour) == Some(Time(ClockHour(hour, pm), DigitsValue(md)))
  {
    LeadingDigitsBefore(md, tail);
    assert (md + tail)[|md|..] == tail;
  }

  lemma MatchText(hd: string, rest: string)
    requires hd != [] && AllDigits(hd)
    ensures MatchAt(hd + (":" + rest)) == AfterHour(rest, DigitsValue(hd))
  {
    var r := hd + (":" + rest);
    LeadingDigitsBefore(hd, ":" + rest);
    assert r[|hd|] == ':';
    assert r[|hd| + 1..] == rest;
  }

  /** The match at the start of hour digits, `:`, minute digits, an optional
      space and a meridiem. */
  lemma MatchShape(s: string, hd: string, md: string, sp: string, meridiem: string)
    requires s == hd + (":" + (md + (sp + meridiem)))
    requires hd != [] && AllDigits(hd) && md != [] && AllDigits(md)
    requires sp == "" || sp == " "
    requires |meridiem| == 2 && meridiem[0] in "AaPp" && meridiem[1] in "Mm"
    ensures ParseTime(s) == Some(Time(ClockHour(DigitsValue(hd), meridiem[0] in "Pp"), DigitsValue(md)))
  {
    var pm := meridiem[0] in "Pp";
    MeridiemText(sp, meridiem);
    var tail := sp + meridiem;
    assert tail[0] == ' ' || tail[0] == meridiem[0];
    LetterNotSpace(meridiem[0]);
    AfterHourText(md, tail, DigitsValue(hd), pm);
    MatchText(hd, md + tail);
    assert s[0..] == s;
  }

  /** For upper-case `AM`/`PM`, the hour `parseTime` computes is the one
      `convertTimeToISO` computes. */
  lemma ClockHourAgrees(h: nat, meridiem: string)
    requires meridiem == "AM" || meridiem == "PM"
    ensures ClockHour(h, meridiem[0] in "Pp") == Helper.Hour24(h, meridiem)
  {
  }

  /** `parseTime` reads back any picker text, upper or lower case. */
  lemma ParseTimeText(h: nat, m: nat, space: bool, meridiem: string)
    requires meridiem in ["AM", "PM", "am", "pm"]
    ensures ParseTime(TimeText(h, m, space, meridiem)) == Some(Time(ClockHour(h, meridiem[0] in "Pp"), m))
  {
    assert |meridiem| == 2 && meridiem[0] in "AaPp" && meridiem[1] in "Mm";
    PaddedValue(m);
    DigitsValueOfNatDigits(h);
    var hd := NatDigits(h);
    var md := PadStart(NatDigits(m), 2, '0');
    var sp := if space then " " else "";
    MatchShape(TimeText(h, m, space, meridiem), hd, md, sp, meridiem);
  }

  /** Lower case is where the two part: `parseTime` reads `12:00 am` as
      midnight, while `convertTimeToISO` keeps hour 12 for a lower-case `am`. */
  lemma LowerCaseMidnight()
    ensures ParseTime(TimeText(12, 0, true, "am")) == Some(Time(0, 0))
    ensures Helper.Hour24(12, "am") == 12
  {
    ParseTimeText(12, 0, true, "am");
  }

  /** The timer order is strict: no non-empty time is later than itself, and
      of two non-empty times at most one order passes. */
  lemma TimerStrict(a: string, b: string)
    requires a != "" && b != ""
    ensures !TimerLater(Some(a), Some(a))
    ensures TimerLater(Some(a), Some(b)) ==> !TimerLater(Some(b), Some(a))
  {
  }

  /** The timer order chains: `b` after `a` and `c` after `b` put `c` after `a`. */
  lemma TimerChains(a: string, b: string, c: string)
    requires a != "" && b != "" && c != ""
    requires TimerLater(Some(a), Some(b)) && TimerLater(Some(b), Some(c))
    ensures TimerLater(Some(a), Some(c))
  {
  }

  /** Midnight is the earliest time: 11 PM to 12 AM fails, 11 AM to 12:30 PM passes. */
  lemma TimerAroundNoonAndMidnight()
    ensures !TimerLater(Some(TimeText(11, 0, true, "PM")), Some(TimeText(12, 0, true, "AM")))
    ensures TimerLater(Some(TimeText(11, 0, true, "AM")), Some(TimeText(12, 30, true, "PM")))
  {
    var elevenPm, midnight := TimeText(11, 0, true, "PM"), TimeText(12, 0, true, "AM");
    var elevenAm, halfPastNoon := TimeText(11, 0, true, "AM"), TimeText(12, 30, true, "PM");
    ParseTimeText(11, 0, true, "PM");
    assert ParseTime(elevenPm) == Some(Time(23, 0));
    ParseTimeText(12, 0, true, "AM");
    assert ParseTime(midnight) == Some(Time(0, 0));
    ParseTimeText(11, 0, true, "AM");
    assert ParseTime(elevenAm) == Some(Time(11, 0));
    ParseTimeText(12, 30, true, "PM");
    assert ParseTime(halfPastNoon) == Some(Time(12, 30));
    assert elevenPm != "" && midnight != "" && elevenAm != "" && halfPastNoon != "";
  }

  // ---------------------------------------------------------------------
  // The market form

  datatype MarketForm = MarketForm(
    marketName: Option<string>,
    groupFrom: Option<int>, groupTo: Option<int>,
    seriesFrom: Option<string>, seriesTo: Option<string>,
    numberFrom: Option<int>, numberTo: Option<int>,
    timerFrom: Option<string>, timerTo: Option<string>,
    priceForEach: Option<int>)

  /** The failed tests of every field, field by field in declaration order. */
  function MarketFormErrors(f: MarketForm): seq<Message>
  {
    MarketNameErrors(f.marketName)
    + When(f.groupFrom.None?, GroupFromRequired) + GroupToErrors(f.groupFrom, f.groupTo)
    + SeriesFromErrors(f.seriesFrom) + SeriesToErrors(f.seriesFrom, f.seriesTo)
    + When(f.numberFrom.None?, NumberFromRequired) + NumberToErrors(f.numberFrom, f.numberTo)
    + TimerFromErrors(f.timerFrom) + TimerToErrors(f.timerFrom, f.timerTo)
    + When(f.priceForEach.None?, PriceRequired)
  }

  /** A market form passes exactly when every field is given and the ranges
      are in order. */
  lemma MarketFormRule(f: MarketForm)
    ensures MarketFormErrors(f) == []
            <==> && Filled(f.marketName) && (forall i :: 0 <= i < |f.marketName.value| ==> NameChar(f.marketName.value[i]))
                 && f.groupFrom.Some? && f.groupTo.Some?
                 && (f.groupFrom.value == 0 || f.groupTo.value == 0 || f.groupFrom.value < f.groupTo.value)
                 && Filled(f.seriesFrom) && (forall i :: 0 <= i < |f.seriesFrom.value| ==> AsciiLetter(f.seriesFrom.value[i]))
                 && Filled(f.seriesTo) && f.seriesTo.value[0] as int - f.seriesFrom.value[0] as int >= 10
                 && f.numberFrom.Some? && f.numberTo.Some?
                 && (f.numberFrom.value == 0 || f.numberFrom.value < f.numberTo.value)
                 && Filled(f.timerFrom) && Filled(f.timerTo)
                 && ParseTime(f.timerFrom.value).Some? && ParseTime(f.timerTo.value).Some?
                 && Minutes(ParseTime(f.timerTo.value).value) > Minutes(ParseTime(f.timerFrom.value).value)
                 && f.priceForEach.Some?
  {
    MarketNameRule(f.marketName);
    GroupRule(f.groupFrom, f.groupTo);
    SeriesFromRule(f.seriesFrom);
    SeriesRule(f.seriesFrom, f.seriesTo);
    NumberRule(f.numberFrom, f.numberTo);
  }

  // ---------------------------------------------------------------------
  // Password reset

  /** The new password must not equal the old one and the confirmation may
      only equal the new one; an absent value is not compared. */
  function ResetErrors(oldPassword: Option<string>, newPassword: Option<string>, confirmPassword: Option<string>): seq<Message>
  {
    When(!Filled(oldPassword), OldPasswordRequired)
    + When(!Filled(newPassword), NewPasswordRequired) + When(newPassword.Some? && oldPassword.Some? && newPassword.value == oldPassword.value, NewPasswordSame)
    + When(confirmPassword.Some? && !(newPassword.Some? && confirmPassword.value == newPassword.value), ConfirmMismatch)
    + When(!Filled(confirmPassword), ConfirmRequired)
  }

  lemma ResetRule(oldPassword: Option<string>, newPassword: Option<string>, confirmPassword: Option<string>)
    ensures ResetErrors(oldPassword, newPassword, confirmPassword) == []
            <==> Filled(oldPassword) && Filled(newPassword) && newPassword.value != oldPassword.value && confirmPassword == newPassword
  {
  }
}
