/** Office hours as written in the data sheet (`M-F 9am-5pm`, `Sa 10am-2pm`)
    and the weekly rules they expand to: `_to24` and `_parse_hours` of
    `backend/providers.py`. */
module Hours {
  import opened Wrappers
  import opened Text

  /** One weekly opening: on `weekday` (0 is Monday) from hour `start` up to, not including, hour `end`. */
  datatype Rule = Rule(weekday: nat, start: int, end: int)

  /** Why reading the data sheet can raise. */
  datatype LoadError =
    | UnknownWeekday(day: string)        // `WEEKDAY_MAP[sd]` raises `KeyError`
    | NoCurrentProvider(line: string)    // a provider detail line before any provider: `None[...]` raises `TypeError`

  /** `WEEKDAY_MAP`. */
  const WeekdayMap: map<string, nat> := map["M" := 0, "Tu" := 1, "W" := 2, "Th" := 3, "F" := 4, "Sa" := 5, "Su" := 6]

  /** The seven abbreviations name the seven weekdays, each exactly once. */
  lemma WeekdayMapIsBijection()
    ensures forall d :: d in WeekdayMap ==> WeekdayMap[d] < 7
    ensures forall d, e :: d in WeekdayMap && e in WeekdayMap && WeekdayMap[d] == WeekdayMap[e] ==> d == e
    ensures forall w :: 0 <= w < 7 ==> w in WeekdayMap.Values
  {
    assert WeekdayMap.Keys == {"M", "Tu", "W", "Th", "F", "Sa", "Su"};
    forall w | 0 <= w < 7
      ensures w in WeekdayMap.Values
    {
      var names := ["M", "Tu", "W", "Th", "F", "Sa", "Su"];
      assert names[w] in WeekdayMap && WeekdayMap[names[w]] == w;
    }
  }

  /** `_to24(h, ap)`: a 12-hour clock reading to the hour of the day. */
  function To24(h: nat, pm: bool): int
  {
    if !pm then (if h == 12 then 0 else h)
    else (if h == 12 then 12 else h + 12)
  }

  /** The 12-hour reading of an hour of the day. */
  function From24(hour: nat): (r: (nat, bool))
    requires hour < 24
  {
    (if hour % 12 == 0 then 12 else hour % 12, hour >= 12)
  }

  /** On the clock face `1..12` with am/pm, `To24` is a bijection onto `0..23`:
      12am is 0, 12pm is 12, any other am hour is itself and any other pm hour is twelve later. */
  lemma To24Bijection(h: nat, pm: bool, hour: nat)
    requires 1 <= h <= 12 && hour < 24
    ensures 0 <= To24(h, pm) < 24
    ensures From24(To24(h, pm) as nat) == (h, pm)
    ensures To24(From24(hour).0, From24(hour).1) == hour
  {
  }

  // ----- the pattern `([A-Za-z]{1,2})(?:-([A-Za-z]{1,2}))?\s+(\d{1,2})(am|pm)-(\d{1,2})(am|pm)` -----

  predicate IsLetter(c: char) { 'A' <= c <= 'Z' || 'a' <= c <= 'z' }

  /** The character classes of the pattern: `[A-Za-z]`, `\s` and `\d`. */
  datatype CharClass = Letters | Spaces | Digits

  predicate InClass(c: char, cls: CharClass)
  {
    match cls
    case Letters => IsLetter(c)
    case Spaces => IsSpace(c)
    case Digits => IsDigit(c)
  }

  /** The length of the longest run of characters of class `cls` that starts at `i`. */
  function Run(s: string, i: nat, cls: CharClass): (n: nat)
    requires i <= |s|
    ensures i + n <= |s|
    ensures forall k :: i <= k < i + n ==> InClass(s[k], cls)
    ensures i + n == |s| || !InClass(s[i + n], cls)
    decreases |s| - i
  {
    if i < |s| && InClass(s[i], cls) then 1 + Run(s, i + 1, cls) else 0
  }

  /** The groups of a successful match: start day, optional end day, and the two 12-hour readings. */
  datatype HoursMatch = HoursMatch(startDay: string, endDay: Option<string>, startHour: nat, startPm: bool, endHour: nat, endPm: bool)

  /** `am` or `pm` at position `i`; `Some(true)` for `pm`. */
  function Meridiem(s: string, i: nat): (r: Option<bool>)
    ensures r.Some? ==> i + 2 <= |s|
  {
    if i + 2 <= |s| && s[i..i + 2] == "am" then Some(false)
    else if i + 2 <= |s| && s[i..i + 2] == "pm" then Some(true)
    else None
  }

  /** A numeral of one or two digits at `i` followed by `am`/`pm`, as the pair of groups
      `(\d{1,2})(am|pm)`, together with the position after it. A longer digit run cannot
      match: backtracking to one digit leaves a digit where `a` or `p` is needed. */
  function ClockAt(s: string, i: nat): (r: Option<(nat, bool, nat)>)
    requires i <= |s|
    ensures r.Some? ==> r.value.0 < 100 && i < r.value.2 <= |s|
  {
    var n := Run(s, i, Digits);
    if n < 1 || n > 2 then None
    else match Meridiem(s, i + n)
      case None => None
      case Some(pm) =>
        DigitsBound(s[i..i + n]);
        Some((DigitsValue(s[i..i + n]), pm, i + n + 2))
  }

  /** The day groups `([A-Za-z]{1,2})(?:-([A-Za-z]{1,2}))?` at the start of `s`, with the position after them. */
  function DaysPart(s: string): (r: Option<(string, Option<string>, nat)>)
    ensures r.Some? ==> 1 <= |r.value.0| <= 2 && r.value.2 <= |s|
    ensures r.Some? && r.value.1.Some? ==> 1 <= |r.value.1.value| <= 2
  {
    var a := Run(s, 0, Letters);
    if a < 1 || a > 2 then None
    else if a < |s| && s[a] == '-' then
      var b := Run(s, a + 1, Letters);
      if b < 1 || b > 2 then None
      else Some((s[..a], Some(s[a + 1..a + 1 + b]), a + 1 + b))
    else Some((s[..a], None, a))
  }

  /** The rest of the pattern from position `i`: `\s+(\d{1,2})(am|pm)-(\d{1,2})(am|pm)`. */
  function ClocksFrom(s: string, i: nat): (r: Option<(nat, bool, nat, bool)>)
    requires i <= |s|
    ensures r.Some? ==> r.value.0 < 100 && r.value.2 < 100
  {
    var w := Run(s, i, Spaces);
    if w == 0 then None else ClockRange(s, i + w)
  }

  /** `(\d{1,2})(am|pm)-(\d{1,2})(am|pm)` at position `k`. */
  function ClockRange(s: string, k: nat): (r: Option<(nat, bool, nat, bool)>)
    requires k <= |s|
    ensures r.Some? ==> r.value.0 < 100 && r.value.2 < 100
  {
    match ClockAt(s, k)
    case None => None
    case Some(first) =>
      var j := first.2;
      if j < |s| && s[j] == '-' then
        match ClockAt(s, j + 1)
        case None => None
        case Some(second) => Some((first.0, first.1, second.0, second.1))
      else None
  }

  /** `re.match` of the hours pattern: anchored at the start, anything may follow.
      Each letter, space and digit group takes its whole run, because giving
      characters back leaves one of the same class where the pattern needs another. */
  function MatchHours(s: string): (r: Option<HoursMatch>)
    ensures r.Some? ==> 1 <= |r.value.startDay| <= 2 && r.value.startHour < 100 && r.value.endHour < 100
    ensures r.Some? && r.value.endDay.Some? ==> 1 <= |r.value.endDay.value| <= 2
  {
    match DaysPart(s)
    case None => None
    case Some((sd, ed, i)) =>
      match ClocksFrom(s, i)
      case None => None
      case Some((sh, spm, eh, epm)) => Some(HoursMatch(sd, ed, sh, spm, eh, epm))
  }

  lemma {:induction false} DigitsBound(s: string)
    requires AllDigits(s)
    ensures DigitsValue(s) < Pow10(|s|)
  {
    if |s| > 0 {
      DigitsBound(s[..|s| - 1]);
    }
  }

  /** The hours text a match was read from, in its canonical spelling:
      one space, hours without leading zeros. */
  function Render(m: HoursMatch): string
  {
    m.startDay + DashPart(m.endDay) + " " + ClockText(m.startHour, m.startPm) + "-" + ClockText(m.endHour, m.endPm)
  }

  predicate IsDayToken(d: string)
  {
    1 <= |d| <= 2 && forall k :: 0 <= k < |d| ==> IsLetter(d[k])
  }

  /** Groups the pattern can produce: day tokens of one or two letters and hours of one or two digits. */
  predicate WellFormedMatch(m: HoursMatch)
  {
    && IsDayToken(m.startDay)
    && (m.endDay.Some? ==> IsDayToken(m.endDay.value))
    && m.startHour < 100 && m.endHour < 100
  }

  /** A run of exactly `n` characters satisfying `p` has length `n`. */
  lemma {:induction false} RunExact(s: string, i: nat, n: nat, cls: CharClass)
    requires i + n <= |s|
    requires forall k :: i <= k < i + n ==> InClass(s[k], cls)
    requires i + n == |s| || !InClass(s[i + n], cls)
    ensures Run(s, i, cls) == n
    decreases n
  {
    if n > 0 {
      RunExact(s, i + 1, n - 1, cls);
    }
  }

  lemma NumeralShort(h: nat)
    requires h < 100
    ensures 1 <= |NatToString(h)| <= 2
    ensures DigitsValue(NatToString(h)) == h
  {
    NatToStringLength(h, 2);
    NatToStringValue(h);
  }

  /** A numeral followed by its meridiem, found at position `i`, reads back as the same clock reading. */
  lemma ClockRoundTrip(s: string, i: nat, h: nat, pm: bool)
    requires h < 100
    requires i + |ClockText(h, pm)| <= |s| && s[i..i + |ClockText(h, pm)|] == ClockText(h, pm)
    ensures |ClockText(h, pm)| >= 3
    ensures ClockAt(s, i) == Some((h, pm, i + |ClockText(h, pm)|))
  {
    var digits := NatToString(h);
    var mer := if pm then "pm" else "am";
    NumeralShort(h);
    var n := |digits|;
    NumeralThenMeridiem(s, i, digits, mer);
    DigitRun(s, i, digits);
    assert Meridiem(s, i + n) == Some(pm);
  }

  /** The text at `i` splits into the numeral and the meridiem that follows it. */
  lemma NumeralThenMeridiem(s: string, i: nat, digits: string, mer: string)
    requires i + |digits + mer| <= |s| && s[i..i + |digits + mer|] == digits + mer && |mer| == 2
    ensures s[i..i + |digits|] == digits && s[i + |digits|..i + |digits| + 2] == mer
  {
    var c := digits + mer;
    assert s[i..i + |digits|] == c[..|digits|];
    assert s[i + |digits|..i + |digits| + 2] == c[|digits|..];
  }

  /** A numeral of one or two digits laid out at `i` and followed by a letter is the digit run there. */
  lemma DigitRun(s: string, i: nat, digits: string)
    requires 1 <= |digits| && AllDigits(digits) && i + |digits| < |s| && s[i..i + |digits|] == digits
    requires IsLetter(s[i + |digits|])
    ensures Run(s, i, Digits) == |digits|
  {
    forall k | i <= k < i + |digits|
      ensures InClass(s[k], Digits)
    {
      assert s[k] == s[i..i + |digits|][k - i];
    }
    RunExact(s, i, |digits|, Digits);
  }

  function DashPart(endDay: Option<string>): string
  {
    match endDay case Some(e) => "-" + e case None => ""
  }

  function ClockText(h: nat, pm: bool): string
  {
    NatToString(h) + (if pm then "pm" else "am")
  }

  /** A day token laid out at `i` and followed by a non-letter is a letter run of its own length. */
  lemma TokenRun(s: string, i: nat, d: string)
    requires IsDayToken(d) && i + |d| < |s| && !IsLetter(s[i + |d|]) && s[i..i + |d|] == d
    ensures Run(s, i, Letters) == |d|
  {
    forall k | i <= k < i + |d|
      ensures InClass(s[k], Letters)
    {
      assert s[k] == s[i..i + |d|][k - i];
    }
    RunExact(s, i, |d|, Letters);
  }

  /** A lone start day followed by a space reads back as that day with no end day. */
  lemma OneDayRender(sd: string, post: string)
    requires IsDayToken(sd) && |post| > 0 && post[0] == ' '
    ensures DaysPart(sd + post) == Some((sd, None, |sd|))
  {
    var s := sd + post;
    assert s[|sd|] == ' ';
    assert s[..|sd|] == s[0..|sd|] == sd;
    TokenRun(s, 0, sd);
  }

  /** A day range `sd-ed` followed by a space reads back as those two days. */
  lemma TwoDaysRender(sd: string, e: string, post: string)
    requires IsDayToken(sd) && IsDayToken(e) && |post| > 0 && post[0] == ' '
    ensures DaysPart(sd + ("-" + e) + post) == Some((sd, Some(e), |sd| + 1 + |e|))
  {
    var s := sd + ("-" + e) + post;
    FirstOfTwo(s, sd, e, post);
    SecondOfTwo(s, sd, e, post);
    DaysPartSlices(s, |sd|, |e|);
  }

  /** In `sd-e...` the start day is a letter run followed by the dash. */
  lemma FirstOfTwo(s: string, sd: string, e: string, post: string)
    requires IsDayToken(sd) && s == sd + ("-" + e) + post
    ensures s[|sd|] == '-' && Run(s, 0, Letters) == |sd| && s[..|sd|] == sd
  {
    assert s[|sd|] == '-';
    assert s[..|sd|] == s[0..|sd|] == sd;
    TokenRun(s, 0, sd);
  }

  /** In `sd-e ...` the end day is a letter run followed by the space. */
  lemma SecondOfTwo(s: string, sd: string, e: string, post: string)
    requires IsDayToken(e) && |post| > 0 && post[0] == ' ' && s == sd + ("-" + e) + post
    ensures Run(s, |sd| + 1, Letters) == |e| && s[|sd| + 1..|sd| + 1 + |e|] == e
  {
    var i := |sd| + 1;
    assert s[i + |e|] == ' ';
    assert s[i..i + |e|] == e;
    TokenRun(s, i, e);
  }

  /** Runs of `a` and `b` letters around a dash: the day groups are the two slices. */
  lemma DaysPartSlices(s: string, a: nat, b: nat)
    requires 1 <= a <= 2 && 1 <= b <= 2 && a + 1 + b <= |s| && s[a] == '-'
    requires Run(s, 0, Letters) == a && Run(s, a + 1, Letters) == b
    ensures DaysPart(s) == Some((s[..a], Some(s[a + 1..a + 1 + b]), a + 1 + b))
  {
  }

  /** The day groups of a rendered match read back as the start and end days. */
  lemma DaysPartRender(sd: string, ed: Option<string>, post: string)
    requires IsDayToken(sd) && (ed.Some? ==> IsDayToken(ed.value))
    requires |post| > 0 && post[0] == ' '
    ensures DaysPart(sd + DashPart(ed) + post) == Some((sd, ed, |sd + DashPart(ed)|))
  {
    if ed.Some? {
      assert DashPart(ed) == "-" + ed.value;
      TwoDaysRender(sd, ed.value, post);
    } else {
      assert sd + DashPart(ed) + post == sd + post;
      OneDayRender(sd, post);
    }
  }

  /** A single space followed by a digit: the space run has length one. */
  lemma OneSpace(s: string, i: nat)
    requires i + 1 < |s| && s[i] == ' ' && IsDigit(s[i + 1])
    ensures Run(s, i, Spaces) == 1
  {
    RunExact(s, i, 1, Spaces);
  }

  lemma ClockRangeOf(s: string, k: nat, sh: nat, spm: bool, j: nat, eh: nat, epm: bool, k2: nat)
    requires k <= |s|
    requires ClockAt(s, k) == Some((sh, spm, j))
    requires j < |s| && s[j] == '-'
    requires ClockAt(s, j + 1) == Some((eh, epm, k2))
    ensures ClockRange(s, k) == Some((sh, spm, eh, epm))
  {
  }

  /** Space, clock, dash and clock laid out from position `i`; the dash is at `j`. */
  lemma ClocksAt(s: string, i: nat, j: nat, sh: nat, spm: bool, eh: nat, epm: bool)
    requires sh < 100 && eh < 100
    requires j == i + 1 + |ClockText(sh, spm)| && j + 1 + |ClockText(eh, epm)| <= |s|
    requires s[i] == ' ' && s[i + 1..j] == ClockText(sh, spm)
    requires s[j] == '-' && s[j + 1..j + 1 + |ClockText(eh, epm)|] == ClockText(eh, epm)
    ensures ClocksFrom(s, i) == Some((sh, spm, eh, epm))
  {
    SpaceThenClock(s, i, j, sh, spm);
    DashThenClock(s, i, sh, spm, j, eh, epm);
  }

  /** After a space and a first clock ending at `j`: a dash and a second clock complete the match. */
  lemma DashThenClock(s: string, i: nat, sh: nat, spm: bool, j: nat, eh: nat, epm: bool)
    requires eh < 100 && i + 1 <= |s| && Run(s, i, Spaces) == 1 && ClockAt(s, i + 1) == Some((sh, spm, j))
    requires j + 1 + |ClockText(eh, epm)| <= |s| && s[j] == '-'
    requires s[j + 1..j + 1 + |ClockText(eh, epm)|] == ClockText(eh, epm)
    ensures ClocksFrom(s, i) == Some((sh, spm, eh, epm))
  {
    ClockRoundTrip(s, j + 1, eh, epm);
    ClocksOf(s, i, sh, spm, j, eh, epm, j + 1 + |ClockText(eh, epm)|);
  }

  /** One space, a clock ending at the dash at `j`, and a second clock: the rest of the pattern matches. */
  lemma ClocksOf(s: string, i: nat, sh: nat, spm: bool, j: nat, eh: nat, epm: bool, k2: nat)
    requires i + 1 <= |s| && Run(s, i, Spaces) == 1
    requires ClockAt(s, i + 1) == Some((sh, spm, j))
    requires j < |s| && s[j] == '-'
    requires ClockAt(s, j + 1) == Some((eh, epm, k2))
    ensures ClocksFrom(s, i) == Some((sh, spm, eh, epm))
  {
    ClockRangeOf(s, i + 1, sh, spm, j, eh, epm, k2);
  }

  lemma SpaceThenClock(s: string, i: nat, j: nat, h: nat, pm: bool)
    requires h < 100
    requires j == i + 1 + |ClockText(h, pm)| && j <= |s|
    requires s[i] == ' ' && s[i + 1..j] == ClockText(h, pm)
    ensures Run(s, i, Spaces) == 1
    ensures ClockAt(s, i + 1) == Some((h, pm, j))
  {
    ClockRoundTrip(s, i + 1, h, pm);
    NumeralShort(h);
    assert s[i + 1] == s[i + 1..j][0] == NatToString(h)[0];
    OneSpace(s, i);
  }

  lemma ClocksFromRender(pre: string, sh: nat, spm: bool, eh: nat, epm: bool, rest: string)
    requires sh < 100 && eh < 100
    ensures ClocksFrom(pre + " " + ClockText(sh, spm) + "-" + ClockText(eh, epm) + rest, |pre|)
         == Some((sh, spm, eh, epm))
  {
    var c1, c2 := ClockText(sh, spm), ClockText(eh, epm);
    var s := pre + " " + c1 + "-" + c2 + rest;
    var i := |pre|;
    var j := i + 1 + |c1|;
    RenderedClocks(s, pre, c1, c2, rest);
    ClocksAt(s, i, j, sh, spm, eh, epm);
  }

  /** Where the pieces of `pre + " " + c1 + "-" + c2 + rest` lie. */
  lemma RenderedClocks(s: string, pre: string, c1: string, c2: string, rest: string)
    requires s == pre + " " + c1 + "-" + c2 + rest
    ensures s[|pre|] == ' ' && s[|pre| + 1..|pre| + 1 + |c1|] == c1
    ensures s[|pre| + 1 + |c1|] == '-' && s[|pre| + 2 + |c1|..|pre| + 2 + |c1| + |c2|] == c2
  {
  }

  /** Whatever follows it, the canonical spelling of well-formed groups matches with exactly those groups. */
  lemma MatchRender(m: HoursMatch, rest: string)
    requires WellFormedMatch(m)
    ensures MatchHours(Render(m) + rest) == Some(m)
  {
    var pre := m.startDay + DashPart(m.endDay);
    var post := " " + ClockText(m.startHour, m.startPm) + "-" + ClockText(m.endHour, m.endPm) + rest;
    assert Render(m) + rest == pre + post;
    DaysPartRender(m.startDay, m.endDay, post);
    ClocksFromRender(pre, m.startHour, m.startPm, m.endHour, m.endPm, rest);
    assert pre + post == pre + " " + ClockText(m.startHour, m.startPm) + "-" + ClockText(m.endHour, m.endPm) + rest;
  }

  // ----- weekday ranges -----

  /** `%` by 7 near the range `0..6`, where it adds or subtracts one week. */
  lemma Mod7(x: int)
    requires -7 <= x < 14
    ensures x % 7 == if x < 0 then x + 7 else if x < 7 then x else x - 7
  {
  }

  /** The weekdays from `si` to `ei` inclusive, stepping forward and wrapping from Sunday to Monday. */
  function DayRange(si: nat, ei: nat): (days: seq<nat>)
    requires si < 7 && ei < 7
    ensures 1 <= |days| <= 7
    ensures forall k :: 0 <= k < |days| ==> days[k] < 7
  {
    seq((ei - si) % 7 + 1, k requires 0 <= k => (si + k) % 7)
  }

  /** A range starts at its first day and ends at its last; a range from a day to itself is that day. */
  lemma DayRangeEnds(si: nat, ei: nat)
    requires si < 7 && ei < 7
    ensures DayRange(si, ei)[0] == si
    ensures DayRange(si, ei)[|DayRange(si, ei)| - 1] == ei
    ensures si == ei ==> DayRange(si, ei) == [si]
  {
    Mod7(ei - si);
    Mod7(si);
    Mod7(si + (ei - si) % 7);
  }

  /** A range moves one weekday at a time, wrapping from Sunday to Monday. */
  lemma DayRangeSteps(si: nat, ei: nat)
    requires si < 7 && ei < 7
    ensures forall k :: 0 < k < |DayRange(si, ei)| ==> DayRange(si, ei)[k] == (DayRange(si, ei)[k - 1] + 1) % 7
  {
    var days := DayRange(si, ei);
    Mod7(ei - si);
    forall k | 0 < k < |days|
      ensures days[k] == (days[k - 1] + 1) % 7
    {
      Mod7(si + k);
      Mod7(si + k - 1);
      Mod7((si + k - 1) % 7 + 1);
    }
  }

  /** A weekday lies in the range exactly when it is no further from the start, going forward, than the end is. */
  lemma DayRangeMembers(si: nat, ei: nat, d: nat)
    requires si < 7 && ei < 7 && d < 7
    ensures d in DayRange(si, ei) <==> (d - si) % 7 <= (ei - si) % 7
  {
    var days := DayRange(si, ei);
    Mod7(d - si);
    Mod7(ei - si);
    if (d - si) % 7 <= (ei - si) % 7 {
      Mod7(si + (d - si) % 7);
      assert days[(d - si) % 7] == d;
    } else {
      forall k | 0 <= k < |days|
        ensures days[k] != d
      {
        Mod7(si + k);
      }
    }
  }

  /** No weekday appears twice in a range. */
  lemma DayRangeDistinct(si: nat, ei: nat)
    requires si < 7 && ei < 7
    ensures forall k, l :: 0 <= k < l < |DayRange(si, ei)| ==> DayRange(si, ei)[k] != DayRange(si, ei)[l]
  {
    var days := DayRange(si, ei);
    Mod7(ei - si);
    forall k, l | 0 <= k < l < |days|
      ensures days[k] != days[l]
    {
      Mod7(si + k);
      Mod7(si + l);
    }
  }

  // ----- _parse_hours -----

  /** What `_parse_hours` returns: no rules when the stripped text does not match,
      otherwise the rules the matched groups describe. */
  function HoursRules(hoursText: string): Result<seq<Rule>, LoadError>
  {
    match MatchHours(Strip(hoursText))
    case None => Ok([])
    case Some(m) => RulesOf(m)
  }

  /** The weekday index of the end of the range: an end day that is absent or unknown counts as the start day. */
  function EndIndex(m: HoursMatch, si: nat): (ei: nat)
    requires si < 7
    ensures ei < 7
  {
    WeekdayMapIsBijection();
    if m.endDay.Some? && m.endDay.value in WeekdayMap then WeekdayMap[m.endDay.value] else si
  }

  /** The days a match covers: a single day when there is no end day or it is the start day, else the range. */
  function DaysOf(m: HoursMatch, si: nat): (days: seq<nat>)
    requires si < 7
  {
    var ei := EndIndex(m, si);
    if m.endDay.None? || ei == si then [si] else DayRange(si, ei)
  }

  /** The rules of matched groups: `KeyError` when the start day is not an abbreviation,
      otherwise one rule per covered day, all with the same hours. */
  function RulesOf(m: HoursMatch): (r: Result<seq<Rule>, LoadError>)
  {
    if m.startDay !in WeekdayMap then Err(UnknownWeekday(m.startDay))
    else
      WeekdayMapIsBijection();
      var days := DaysOf(m, WeekdayMap[m.startDay]);
      var start, end := To24(m.startHour, m.startPm), To24(m.endHour, m.endPm);
      Ok(seq(|days|, k requires 0 <= k < |days| => Rule(days[k], start, end)))
  }

  /** `_parse_hours`, with its `while True` loop that walks the weekdays. */
  method ParseHours(hoursText: string) returns (r: Result<seq<Rule>, LoadError>)
    ensures r == HoursRules(hoursText)
  {
    var matched := MatchHours(Strip(hoursText));
    if matched.None? {
      return Ok([]);
    }
    r := ExpandRules(matched.value);
  }

  /** The body of `_parse_hours` after a successful match. */
  method ExpandRules(m: HoursMatch) returns (r: Result<seq<Rule>, LoadError>)
    ensures r == RulesOf(m)
  {
    if m.startDay !in WeekdayMap {
      return Err(UnknownWeekday(m.startDay));
    }
    WeekdayMapIsBijection();
    var si := WeekdayMap[m.startDay];
    var ei := EndIndex(m, si);
    var startHour, endHour := To24(m.startHour, m.startPm), To24(m.endHour, m.endPm);
    var days: seq<nat>;
    if m.endDay.None? || ei == si {
      days := [si];
    } else {
      days := WalkDays(si, ei);
    }
    assert days == DaysOf(m, si);
    return Ok(seq(|days|, k requires 0 <= k < |days| => Rule(days[k], startHour, endHour)));
  }

  /** The `while True` loop of `_parse_hours`: from the start day, append and step forward until the end day. */
  method WalkDays(si: nat, ei: nat) returns (days: seq<nat>)
    requires si < 7 && ei < 7
    ensures days == DayRange(si, ei)
  {
    var span := (ei - si) % 7;
    Mod7(ei - si);
    days := [];
    var i := si;
    while true
      invariant |days| <= span
      invariant i == (si + |days|) % 7
      invariant days == DayRange(si, ei)[..|days|]
      decreases span - |days|
    {
      Mod7(si + |days|);
      assert DayRange(si, ei)[..|days| + 1] == days + [i];
      days := days + [i];
      if i == ei {
        break;
      }
      Mod7(si + |days|);
      i := (i + 1) % 7;
    }
  }

  /** Every rule of an expansion shares one pair of hours, the converted start and end readings. */
  lemma RulesOfShareHours(m: HoursMatch)
    ensures RulesOf(m).Ok? ==> forall k :: 0 <= k < |RulesOf(m).value| ==>
      RulesOf(m).value[k].start == To24(m.startHour, m.startPm) &&
      RulesOf(m).value[k].end == To24(m.endHour, m.endPm)
    ensures RulesOf(m).Err? <==> m.startDay !in WeekdayMap
  {
  }

  /** A range `Dd-Ee` with two known days covers exactly the weekdays from `Dd` forward to `Ee`. */
  lemma RulesOfRange(m: HoursMatch, d: nat)
    requires d < 7
    requires m.startDay in WeekdayMap && m.endDay.Some? && m.endDay.value in WeekdayMap
    ensures RulesOf(m).Ok?
    ensures var si, ei := WeekdayMap[m.startDay], WeekdayMap[m.endDay.value];
      (exists k :: 0 <= k < |RulesOf(m).value| && RulesOf(m).value[k].weekday == d)
        <==> (d as int - si as int) % 7 <= (ei as int - si as int) % 7
  {
    WeekdayMapIsBijection();
    var si, ei := WeekdayMap[m.startDay], WeekdayMap[m.endDay.value];
    var rules := RulesOf(m).value;
    var days := DaysOf(m, si);
    assert |rules| == |days| && forall k :: 0 <= k < |days| ==> rules[k].weekday == days[k];
    DayRangeMembers(si, ei, d);
    if si == ei {
      DayRangeEnds(si, ei);
    }
  }
}
