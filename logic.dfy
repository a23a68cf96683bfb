/** The scheduling rules of `backend/logic.py`: NEW versus ESTABLISHED
    patients, appointment length, insurance acceptance and self-pay rates.
    "Today" is an input moment rather than `datetime.now()`. */
module Logic {
  import opened Wrappers
  import opened Text
  import opened Calendar

  /** Appointment length in minutes for each appointment type (`APPT_MINUTES`). */
  const NewMinutes: nat := 30
  const EstablishedMinutes: nat := 15

  /** `strptime` with `"%m/%d/%y"` first and `"%Y-%m-%d"` second; `None` when both raise `ValueError`. */
  function ParseVisitDate(s: string): (r: Option<Date>)
    ensures r.Some? ==> ValidDate(r.value)
    ensures r.Some? <==> ParseMDY(s).Some? || ParseISO(s).Some?
    ensures r.Some? ==> r == ParseMDY(s) || r == ParseISO(s)
  {
    match ParseMDY(s)
    case Some(d) => Some(d)
    case None => ParseISO(s)
  }

  /** `is_established`: the last completed visit lies no more than five
      years (5 * 365 days) before `today`; a visit in the future counts. */
  predicate IsEstablished(lastVisit: Option<string>, today: Moment)
  {
    match lastVisit
    case None => false
    case Some(s) =>
      if s == "" then false
      else
        match ParseVisitDate(s)
        case None => false
        case Some(d) => today as int - Midnight(d) as int <= FiveYears as int
  }

  /** `appointment_type`. */
  function AppointmentType(lastVisit: Option<string>, today: Moment): (r: string)
    ensures r == "ESTABLISHED" || r == "NEW"
    ensures r == "ESTABLISHED" <==> IsEstablished(lastVisit, today)
  {
    if IsEstablished(lastVisit, today) then "ESTABLISHED" else "NEW"
  }

  /** `appointment_minutes`: looks the upper-cased type up in `APPT_MINUTES`, defaulting to 30. */
  function AppointmentMinutes(apptType: Option<string>): (r: nat)
    ensures r == EstablishedMinutes || r == NewMinutes
    ensures r == EstablishedMinutes <==> apptType.Some? && UpperStr(apptType.value) == "ESTABLISHED"
  {
    var key := UpperStr(apptType.GetOr(""));
    if key == "NEW" then NewMinutes
    else if key == "ESTABLISHED" then EstablishedMinutes
    else NewMinutes
  }

  /** The appointment type the backend computes always maps to its own length. */
  lemma MinutesOfType(lastVisit: Option<string>, today: Moment)
    ensures AppointmentMinutes(Some(AppointmentType(lastVisit, today)))
         == if IsEstablished(lastVisit, today) then EstablishedMinutes else NewMinutes
  {
    if IsEstablished(lastVisit, today) {
      assert UpperStr("ESTABLISHED") == "ESTABLISHED";
    } else {
      assert UpperStr("NEW") == "NEW";
    }
  }

  /** A visit recorded in ISO form is established exactly when it lies
      within five years before today (later dates included). */
  lemma EstablishedWindow(d: Date, today: Moment)
    requires ValidDate(d)
    ensures IsEstablished(Some(FormatDate(d)), today) <==> today <= Midnight(d) + FiveYears
  {
    var s := FormatDate(d);
    ISORoundTrip(d);
    PadRoundTrip(d.year, 4);
    PadRoundTrip(d.month, 2);
    PadRoundTrip(d.day, 2);
    assert s == Pad(d.year, 4) + "-" + Pad(d.month, 2) + "-" + Pad(d.day, 2);
    NoSlash(s);
    assert |SplitOn(s, '/')| == 1;
    assert ParseVisitDate(s) == Some(d);
  }

  /** A visit recorded as `%m/%d/%y`, the form the visit dates are sorted by, is
      established exactly when it lies within five years before today (later dates
      included), for the years `%y` reads back (1969 to 2068). */
  lemma EstablishedWindowMDY(d: Date, today: Moment)
    requires ValidDate(d) && 1969 <= d.year <= 2068
    ensures IsEstablished(Some(FormatMDY(d)), today) <==> today <= Midnight(d) + FiveYears
  {
    MDYRoundTrip(d);
    assert ParseVisitDate(FormatMDY(d)) == Some(d);
    assert FormatMDY(d) != "" by {
      assert FormatMDY(d)[2] == '/';
    }
  }

  lemma NoSlash(s: string)
    requires forall i :: 0 <= i < |s| ==> IsDigit(s[i]) || s[i] == '-'
    ensures SplitOn(s, '/') == [s]
  {
    NoSeparator(s, '/');
  }

  /** Being established is monotone in time: what holds today held on every earlier day. */
  lemma EstablishedEarlier(lastVisit: Option<string>, today: Moment, earlier: Moment)
    requires earlier <= today && IsEstablished(lastVisit, today)
    ensures IsEstablished(lastVisit, earlier)
  {
  }

  /** Recursive form of Python's `any(patient_ins.lower() == a.lower() for a in accepted)`. */
  predicate AnyEqualIgnoringCase(x: string, accepted: seq<string>)
  {
    |accepted| > 0 && (EqualsIgnoreCase(x, accepted[0]) || AnyEqualIgnoringCase(x, accepted[1..]))
  }

  lemma {:induction false} AnyEqualIgnoringCaseIff(x: string, accepted: seq<string>)
    ensures AnyEqualIgnoringCase(x, accepted) <==> exists i :: 0 <= i < |accepted| && EqualsIgnoreCase(x, accepted[i])
  {
    if |accepted| > 0 {
      AnyEqualIgnoringCaseIff(x, accepted[1..]);
      assert forall i :: 1 <= i < |accepted| ==> accepted[i] == accepted[1..][i - 1];
    }
  }

  /** `insurance_is_accepted`: a missing or empty insurance is never accepted;
      otherwise some accepted plan equals it ignoring case. */
  predicate InsuranceIsAccepted(insurance: Option<string>, accepted: seq<string>)
  {
    match insurance
    case None => false
    case Some(s) => s != "" && AnyEqualIgnoringCase(s, accepted)
  }

  lemma InsuranceAcceptedIff(insurance: Option<string>, accepted: seq<string>)
    ensures InsuranceIsAccepted(insurance, accepted) <==>
      insurance.Some? && insurance.value != "" &&
      exists i :: 0 <= i < |accepted| && EqualsIgnoreCase(insurance.value, accepted[i])
  {
    if insurance.Some? {
      AnyEqualIgnoringCaseIff(insurance.value, accepted);
    }
  }

  /** `self_pay_rate`: the price of the first specialty, in map order, that
      equals `specialty` ignoring case. */
  function SelfPayRate(specialty: string, selfPay: seq<(string, real)>): (r: Option<real>)
    ensures r.None? <==> forall i :: 0 <= i < |selfPay| ==> !EqualsIgnoreCase(selfPay[i].0, specialty)
    ensures r.Some? ==> exists i :: (0 <= i < |selfPay| && EqualsIgnoreCase(selfPay[i].0, specialty)
      && selfPay[i].1 == r.value
      && forall j :: 0 <= j < i ==> !EqualsIgnoreCase(selfPay[j].0, specialty))
  {
    if |selfPay| == 0 then None
    else if EqualsIgnoreCase(selfPay[0].0, specialty) then Some(selfPay[0].1)
    else
      var r := SelfPayRate(specialty, selfPay[1..]);
      assert forall i :: 1 <= i < |selfPay| ==> selfPay[i] == selfPay[1..][i - 1];
      r
  }
}
