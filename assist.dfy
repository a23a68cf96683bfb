/** The body of the `/assist` endpoint in `backend/app.py`. It groups the patient's
    completed visits by provider, chooses the candidate providers for each referral,
    builds one answer per candidate, and ends with the insurance answer. The hospital
    directory, the patient record, "now" and the language model's wording are inputs. */
module Assist {
  import opened Wrappers
  import opened Text
  import opened Seqs
  import opened Dicts
  import opened Calendar
  import opened Logic
  import opened Directory
  import opened Search
  import opened Payload

  /** One entry of `appointments`; every key may be missing. */
  datatype Appointment = Appointment(status: Option<string>, provider: Option<string>, date: Option<string>)

  /** One entry of `referred_providers`. */
  datatype Referral = Referral(specialty: Option<string>, provider: Option<string>)

  /** The patient record the context service returns. */
  datatype Patient = Patient(
    name: Option<string>,
    dob: Option<string>,
    insurance: Option<string>,
    referred: seq<Referral>,
    appointments: seq<Appointment>)

  /** Why the endpoint raises instead of answering. */
  datatype AssistError =
    | NoDepartment                    // `[][0]` for a provider listed without departments
    | MissingSpecialty                // `None.lower()` inside `self_pay_rate`

  // ----- completed visits by provider -----

  /** `completed_by_provider`: provider key to visit dates, in first-insertion order.
      A key is only created together with its first date. */
  type Groups = g: seq<(string, seq<Option<string>>)> | forall i :: 0 <= i < |g| ==> |g[i].1| > 0

  /** `(ap.get("status") or "").lower() == "completed"`. */
  predicate IsCompleted(ap: Appointment)
  {
    LowerStr(ap.status.GetOr("")) == "completed"
  }

  /** `(ap.get("provider") or "").replace("Dr. ", "").strip()`. */
  function VisitKey(ap: Appointment): string
  {
    Strip(RemoveAll(ap.provider.GetOr(""), "Dr. "))
  }

  /** `ap.get("date")`. */
  function VisitDate(ap: Appointment): Option<string>
  {
    ap.date
  }

  /** The dictionary after the grouping loop has seen all of `aps`. */
  function CompletedGroups(aps: seq<Appointment>): Groups
  {
    GroupByNonEmpty(aps, IsCompleted, VisitKey, VisitDate);
    GroupBy(aps, IsCompleted, VisitKey, VisitDate)
  }

  /** The grouping loop of the endpoint. */
  method GroupCompletedVisits(aps: seq<Appointment>) returns (g: Groups)
    ensures g == CompletedGroups(aps)
  {
    var d: seq<(string, seq<Option<string>>)> := [];
    var i := 0;
    while i < |aps|
      invariant i <= |aps|
      invariant d == GroupBy(aps[..i], IsCompleted, VisitKey, VisitDate)
    {
      var ap := aps[i];
      assert aps[..i + 1][..i] == aps[..i];
      if LowerStr(ap.status.GetOr("")) == "completed" {
        var prov := Strip(RemoveAll(ap.provider.GetOr(""), "Dr. "));
        var dates := Lookup(d, prov).GetOr([]);
        d := Assign(d, prov, dates + [ap.date]);
      }
      i := i + 1;
    }
    assert aps[..|aps|] == aps;
    GroupByNonEmpty(aps, IsCompleted, VisitKey, VisitDate);
    g := d;
  }

  /** A provider key is present exactly when some completed appointment has it, and it holds
      the dates of those appointments in record order. */
  lemma GroupsCollectDates(aps: seq<Appointment>, k: string)
    ensures var dates := Collected(aps, IsCompleted, VisitKey, VisitDate, k);
      Lookup(CompletedGroups(aps), k) == if dates == [] then None else Some(dates)
    ensures forall x :: x in Collected(aps, IsCompleted, VisitKey, VisitDate, k) <==>
      exists i :: 0 <= i < |aps| && IsCompleted(aps[i]) && VisitKey(aps[i]) == k && aps[i].date == x
  {
    GroupByLookup(aps, IsCompleted, VisitKey, VisitDate, k);
    forall x
      ensures x in Collected(aps, IsCompleted, VisitKey, VisitDate, k) <==>
        exists i :: 0 <= i < |aps| && IsCompleted(aps[i]) && VisitKey(aps[i]) == k && aps[i].date == x
    {
      CollectedMembership(aps, IsCompleted, VisitKey, VisitDate, k, x);
    }
  }

  // ----- the last completed visit with a provider -----

  /** The sort key `datetime.strptime(s, "%m/%d/%y")` as a day count; `None` where it raises. */
  function SortKey(o: Option<string>): Option<nat>
  {
    match o
    case None => None
    case Some(s) =>
      match ParseMDY(s)
      case None => None
      case Some(d) => Some(DayNumber(d))
  }

  /** Every date parses, so the sort does not raise. */
  predicate AllParse(dts: seq<Option<string>>)
  {
    forall i :: 0 <= i < |dts| ==> SortKey(dts[i]).Some?
  }

  /** The position of the last element of a stable ascending sort: a largest key, and
      the last among equal largest keys. */
  function LastMaxIndex(keys: seq<nat>): (r: nat)
    requires |keys| > 0
    ensures r < |keys|
    ensures forall j :: 0 <= j < |keys| ==> keys[j] <= keys[r]
    ensures forall j :: r < j < |keys| ==> keys[j] < keys[r]
    decreases |keys|
  {
    if |keys| == 1 then 0
    else
      var n := |keys| - 1;
      var r := LastMaxIndex(keys[..n]);
      assert forall j :: 0 <= j < n ==> keys[..n][j] == keys[j];
      if keys[n] >= keys[r] then n else r
  }

  function DayKeys(dts: seq<Option<string>>): seq<nat>
  {
    Map(dts, (o: Option<string>) => SortKey(o).GetOr(0))
  }

  /** The `try` around `sorted(dts, key=...)[-1]`: the latest date, the last of equal latest
      ones, when every date parses; otherwise (the `except` branch) the last date recorded. */
  function LatestDate(dts: seq<Option<string>>): (r: Option<string>)
    requires |dts| > 0
    ensures r in dts
  {
    if AllParse(dts) then
      var i := LastMaxIndex(DayKeys(dts));
      dts[i]
    else dts[|dts| - 1]
  }

  /** When every date parses, `LatestDate` is a latest date and no later position holds one
      as late; otherwise it is the last date recorded. */
  lemma LatestDateIsLatest(dts: seq<Option<string>>)
    requires |dts| > 0
    ensures AllParse(dts) ==>
      exists i :: 0 <= i < |dts| && LatestDate(dts) == dts[i]
        && (forall j :: 0 <= j < |dts| ==> SortKey(dts[j]).value <= SortKey(LatestDate(dts)).value)
        && (forall j :: i < j < |dts| ==> SortKey(dts[j]).value < SortKey(LatestDate(dts)).value)
    ensures !AllParse(dts) ==> LatestDate(dts) == dts[|dts| - 1]
  {
    if AllParse(dts) {
      var keys := DayKeys(dts);
      var i := LastMaxIndex(keys);
      assert forall j :: 0 <= j < |dts| ==> keys[j] == SortKey(dts[j]).value;
      assert LatestDate(dts) == dts[i];
    }
  }

  /** `surname.lower() in prov.lower()`. */
  predicate SurnameIn(key: string, surname: string)
  {
    Contains(LowerStr(key), LowerStr(surname))
  }

  /** `last_completed` after the loop over the groups: every matching group overwrites it. */
  function LastCompleted(g: Groups, surname: string): Option<string>
    decreases |g|
  {
    if |g| == 0 then None
    else
      var n := |g| - 1;
      if SurnameIn(g[n].0, surname) then LatestDate(g[n].1) else LastCompleted(g[..n], surname)
  }

  /** No matching provider leaves the last visit unknown; otherwise the last matching
      group decides it. */
  lemma {:induction false} LastCompletedIsLastMatch(g: Groups, surname: string)
    ensures (forall i :: 0 <= i < |g| ==> !SurnameIn(g[i].0, surname)) ==> LastCompleted(g, surname).None?
    ensures forall i ::
      0 <= i < |g| && SurnameIn(g[i].0, surname) && (forall j :: i < j < |g| ==> !SurnameIn(g[j].0, surname)) ==>
      LastCompleted(g, surname) == LatestDate(g[i].1)
    decreases |g|
  {
    if |g| > 0 {
      var n := |g| - 1;
      assert forall i :: 0 <= i < n ==> g[..n][i] == g[i];
      LastCompletedIsLastMatch(g[..n], surname);
    }
  }

  lemma {:induction false} LastCompletedFromGroup(g: Groups, surname: string)
    ensures LastCompleted(g, surname).Some? ==>
      exists i :: 0 <= i < |g| && SurnameIn(g[i].0, surname) && LastCompleted(g, surname) in g[i].1
    decreases |g|
  {
    if |g| > 0 {
      var n := |g| - 1;
      if SurnameIn(g[n].0, surname) {
        assert LastCompleted(g, surname) == LatestDate(g[n].1);
        assert LastCompleted(g, surname) in g[n].1;
      } else {
        assert LastCompleted(g, surname) == LastCompleted(g[..n], surname);
        LastCompletedFromGroup(g[..n], surname);
        if LastCompleted(g, surname).Some? {
          var i :| 0 <= i < n && SurnameIn(g[..n][i].0, surname) && LastCompleted(g, surname) in g[..n][i].1;
          assert g[..n][i] == g[i];
        }
      }
    }
  }

  /** A known last visit is the date of a completed appointment whose provider key contains
      the surname. */
  lemma LastVisitIsCompleted(aps: seq<Appointment>, surname: string)
    ensures var last := LastCompleted(CompletedGroups(aps), surname);
      last.Some? ==> exists i :: 0 <= i < |aps| && IsCompleted(aps[i]) && SurnameIn(VisitKey(aps[i]), surname) && aps[i].date == last
  {
    var g := CompletedGroups(aps);
    var last := LastCompleted(g, surname);
    LastCompletedFromGroup(g, surname);
    if last.Some? {
      var i :| 0 <= i < |g| && SurnameIn(g[i].0, surname) && last in g[i].1;
      LookupEntry(g, i);
      GroupsCollectDates(aps, g[i].0);
      assert last in Collected(aps, IsCompleted, VisitKey, VisitDate, g[i].0);
    }
  }

  /** The inner loop over the groups. */
  method LastCompletedVisit(g: Groups, surname: string) returns (last: Option<string>)
    ensures last == LastCompleted(g, surname)
  {
    last := None;
    var i := 0;
    while i < |g|
      invariant i <= |g|
      invariant last == LastCompleted(g[..i], surname)
    {
      var (prov, dts) := g[i];
      assert g[..i + 1][..i] == g[..i];
      if Contains(LowerStr(prov), LowerStr(surname)) {
        last := LatestDate(dts);
      }
      i := i + 1;
    }
    assert g[..|g|] == g;
  }

  // ----- candidates for a referral -----

  /** A referred provider is named and some provider's name contains its surname. */
  predicate ReferredByName(ps: seq<Provider>, ref: Referral)
  {
    ref.provider.Some? && ref.provider.value != ""
    && exists q :: q in ps && Matches(q, None, Some(Before(ref.provider.value, ",")))
  }

  /** The candidates for one referral: by the surname of a named provider when that finds
      someone (`find_providers(...) or find_providers(...)`), otherwise by specialty. */
  function Candidates(ps: seq<Provider>, ref: Referral): seq<Provider>
  {
    if ref.provider.Some? && ref.provider.value != "" then
      var byName := Found(ps, None, Some(Before(ref.provider.value, ",")));
      if |byName| > 0 then byName else Found(ps, ref.specialty, None)
    else Found(ps, ref.specialty, None)
  }

  /** Candidates keep directory order; they are the providers matching the surname when a
      named referral finds any, and the providers of the referred specialty otherwise. */
  lemma CandidatesChoice(ps: seq<Provider>, ref: Referral, p: Provider)
    ensures IsSubseq(Candidates(ps, ref), ps)
    ensures ReferredByName(ps, ref) ==>
      (p in Candidates(ps, ref) <==> p in ps && Matches(p, None, Some(Before(ref.provider.value, ","))))
    ensures !ReferredByName(ps, ref) ==>
      (p in Candidates(ps, ref) <==> p in ps && Matches(p, ref.specialty, None))
  {
    FoundIsOrderedSelection(ps, ref.specialty, None, p);
    if ref.provider.Some? && ref.provider.value != "" {
      var surname := Before(ref.provider.value, ",");
      var byName := Found(ps, None, Some(surname));
      FoundIsOrderedSelection(ps, None, Some(surname), p);
      if |byName| > 0 {
        FoundIsOrderedSelection(ps, None, Some(surname), byName[0]);
      } else {
        forall q | q in ps
          ensures !Matches(q, None, Some(surname))
        {
          FoundIsOrderedSelection(ps, None, Some(surname), q);
        }
      }
    }
  }

  method CandidatesFor(ps: seq<Provider>, ref: Referral) returns (cands: seq<Provider>)
    ensures cands == Candidates(ps, ref)
  {
    var specialty := ref.specialty;
    var refprov := ref.provider;
    if refprov.Some? && refprov.value != "" {
      var surname := Before(refprov.value, ",");
      cands := FindProviders(ps, None, Some(surname));
      if |cands| == 0 {
        cands := FindProviders(ps, specialty, None);
      }
    } else {
      cands := FindProviders(ps, specialty, None);
    }
  }

  // ----- one answer per candidate -----

  /** `p.get("departments", [{}])[0]`, reading a provider without departments as `{}`. */
  function FirstDepartment(p: Provider): Department
  {
    if |p.departments| == 0 then NoFields else p.departments[0]
  }

  /** The answer for one candidate, with `null` department fields when the provider has no
      department. */
  function ProviderAnswer(p: Provider, g: Groups, today: Moment): Answer
  {
    var appt := AppointmentType(LastCompleted(g, Before(p.name, ",")), today);
    var dept := FirstDepartment(p);
    NoKeys.(
      provider := Present(p.name),
      certification := FromOption(p.certification),
      specialty := FromOption(p.specialty),
      department := FromOption(dept.name),
      address := FromOption(dept.address),
      phone := FromOption(dept.phone),
      hours := FromOption(dept.hoursRaw),
      appointmentType := Present(appt),
      suggestedSlot := Present(FormatMoment(NextSlot(p, today))))
  }

  /** The answer as the endpoint builds it: `[][0]` raises for a provider whose department
      list is empty. */
  function ProviderAnswerAsWritten(p: Provider, g: Groups, today: Moment): Result<Answer, AssistError>
  {
    if |p.departments| == 0 then Err(NoDepartment) else Ok(ProviderAnswer(p, g, today))
  }

  /** A provider line with no department block under it yields a provider with no
      departments; the as-written answer raises for it, where the default `[{}]` was meant
      to give `null` department fields. */
  lemma NoDepartmentCounterexample(g: Groups, today: Moment)
    ensures var p := Provider("Grey, Meredith", Some("MD"), Some("Surgery"), []);
      && ProviderAnswerAsWritten(p, g, today) == Err(NoDepartment)
      && ProviderAnswer(p, g, today).provider == Present("Grey, Meredith")
      && ProviderAnswer(p, g, today).department == Null
      && ProviderAnswer(p, g, today).hours == Null
  {
  }

  /** Where the as-written answer exists it is the corrected one. */
  lemma AsWrittenAgreesWithDepartments(p: Provider, g: Groups, today: Moment)
    ensures ProviderAnswerAsWritten(p, g, today).Err? <==> |p.departments| == 0
    ensures ProviderAnswerAsWritten(p, g, today).Ok? ==> ProviderAnswerAsWritten(p, g, today).value == ProviderAnswer(p, g, today)
  {
  }

  /** A provider answer names the provider, carries no insurance keys, types the
      appointment by the last completed visit with that provider, and suggests the slot
      the opening-hours search finds, which renders as `YYYY-MM-DD HH:MM` within
      `datetime`'s range. */
  lemma ProviderAnswerFacts(p: Provider, g: Groups, today: Moment)
    ensures ProviderAnswer(p, g, today).provider == Present(p.name)
    ensures ProviderAnswer(p, g, today).insurance.Absent? && ProviderAnswer(p, g, today).accepted.Absent?
    ensures ProviderAnswer(p, g, today).appointmentType
      == Present(if IsEstablished(LastCompleted(g, Before(p.name, ",")), today) then "ESTABLISHED" else "NEW")
    ensures ProviderAnswer(p, g, today).suggestedSlot == Present(FormatMoment(NextSlot(p, today)))
    ensures DateOf(NextSlot(p, today)).year <= 9999 ==> IsSlotShape(FormatMoment(NextSlot(p, today)))
  {
    if DateOf(NextSlot(p, today)).year <= 9999 {
      FormatMomentShape(NextSlot(p, today));
    }
  }

  /** The body of the inner `for p in candidates` loop; indexing the empty department list
      raises after the type and the slot have been computed. */
  method AnswerFor(p: Provider, g: Groups, today: Moment) returns (r: Result<Answer, AssistError>)
    ensures r == ProviderAnswerAsWritten(p, g, today)
    ensures r.Err? <==> |p.departments| == 0
  {
    var surname := Before(p.name, ",");
    var last := LastCompletedVisit(g, surname);
    var appt := AppointmentType(last, today);
    var minutes := AppointmentMinutes(Some(appt));
    var slot := NextOpenSlot(p, today);
    if |p.departments| == 0 {
      return Err(NoDepartment);
    }
    var dept := p.departments[0];
    r := Ok(NoKeys.(
      provider := Present(p.name),
      certification := FromOption(p.certification),
      specialty := FromOption(p.specialty),
      department := FromOption(dept.name),
      address := FromOption(dept.address),
      phone := FromOption(dept.phone),
      hours := FromOption(dept.hoursRaw),
      appointmentType := Present(appt),
      suggestedSlot := Present(FormatMoment(slot))));
  }

  /** `f` applied to each element of `xs`, in order. */
  function Each<A, B>(f: A -> B, xs: seq<A>): (ys: seq<B>)
    ensures |ys| == |xs|
    decreases |xs|
  {
    if |xs| == 0 then []
    else Each(f, xs[..|xs| - 1]) + [f(xs[|xs| - 1])]
  }

  /** `Each` keeps the positions: one result per element, the `k`-th for the `k`-th. */
  lemma {:induction false} EachAt<A, B>(f: A -> B, xs: seq<A>, k: nat)
    requires k < |xs|
    ensures Each(f, xs)[k] == f(xs[k])
    decreases |xs|
  {
    var n := |xs| - 1;
    if k < n {
      EachAt(f, xs[..n], k);
      assert xs[..n][k] == xs[k];
    }
  }

  /** The answer for one candidate, as a function value. */
  function AnswerOf(g: Groups, today: Moment): Provider -> Answer
  {
    p => ProviderAnswer(p, g, today)
  }

  /** The answers for a list of candidates, one each, in order. */
  function AnswersFor(cands: seq<Provider>, g: Groups, today: Moment): seq<Answer>
  {
    Each(AnswerOf(g, today), cands)
  }

  /** The answers line up with the candidates: the `k`-th answer is the `k`-th candidate's. */
  lemma AnswerAt(cands: seq<Provider>, g: Groups, today: Moment, k: nat)
    requires k < |cands|
    ensures |AnswersFor(cands, g, today)| == |cands|
    ensures AnswersFor(cands, g, today)[k] == ProviderAnswer(cands[k], g, today)
  {
    EachAt(AnswerOf(g, today), cands, k);
  }

  /** `a` is the answer for one of the providers `ps`. */
  predicate AnswerOfOneOf(a: Answer, ps: seq<Provider>, g: Groups, today: Moment)
  {
    exists p :: p in ps && a == ProviderAnswer(p, g, today)
  }

  /** Every answer for a candidate list is the answer for one of those candidates. */
  lemma AnswersForMembership(cands: seq<Provider>, g: Groups, today: Moment)
    ensures forall a :: a in AnswersFor(cands, g, today) ==> AnswerOfOneOf(a, cands, g, today)
  {
    var answers := AnswersFor(cands, g, today);
    forall a | a in answers
      ensures AnswerOfOneOf(a, cands, g, today)
    {
      var k :| 0 <= k < |answers| && answers[k] == a;
      AnswerAt(cands, g, today, k);
      assert cands[k] in cands;
    }
  }

  /** The provider answers for all referrals: referral by referral, one answer per candidate. */
  function ReferralAnswers(refs: seq<Referral>, ps: seq<Provider>, g: Groups, today: Moment): seq<Answer>
    decreases |refs|
  {
    if |refs| == 0 then []
    else ReferralAnswers(refs[..|refs| - 1], ps, g, today) + AnswersFor(Candidates(ps, refs[|refs| - 1]), g, today)
  }

  /** Every provider answer is the answer for some provider of the directory. */
  lemma {:induction false} ReferralAnswersFromDirectory(refs: seq<Referral>, ps: seq<Provider>, g: Groups, today: Moment)
    ensures forall a :: a in ReferralAnswers(refs, ps, g, today) ==> AnswerOfOneOf(a, ps, g, today)
    decreases |refs|
  {
    if |refs| > 0 {
      var n := |refs| - 1;
      ReferralAnswersFromDirectory(refs[..n], ps, g, today);
      assert forall p :: p in Candidates(ps, refs[n]) ==> p in ps;
      AnswersForMembership(Candidates(ps, refs[n]), g, today);
    }
  }

  /** Some candidate was listed without departments. */
  predicate LacksDepartment(cands: seq<Provider>)
  {
    exists i :: 0 <= i < |cands| && |cands[i].departments| == 0
  }

  /** What the candidate loop as written yields: it raises when a candidate has no
      departments, and otherwise gives one answer per candidate. */
  function AnswersForAsWritten(cands: seq<Provider>, g: Groups, today: Moment): Result<seq<Answer>, AssistError>
  {
    if LacksDepartment(cands) then Err(NoDepartment) else Ok(AnswersFor(cands, g, today))
  }

  /** Some referral has a candidate listed without departments. */
  predicate MissingDepartment(refs: seq<Referral>, ps: seq<Provider>)
  {
    exists i :: 0 <= i < |refs| && LacksDepartment(Candidates(ps, refs[i]))
  }

  /** What the referral loop as written yields: it raises when some referral has a candidate
      without departments, and otherwise gives the answers of every referral. */
  function ReferralAnswersAsWritten(refs: seq<Referral>, ps: seq<Provider>, g: Groups, today: Moment): Result<seq<Answer>, AssistError>
  {
    if MissingDepartment(refs, ps) then Err(NoDepartment) else Ok(ReferralAnswers(refs, ps, g, today))
  }

  // ----- the insurance answer -----

  /** `self_pay_rate(sp, selfpay)`, where a missing specialty raises as soon as the table
      has an entry to compare it with. */
  function RateFor(sp: Option<string>, table: seq<(string, real)>): Result<Option<real>, AssistError>
  {
    match sp
    case Some(s) => Ok(SelfPayRate(s, table))
    case None => if |table| == 0 then Ok(None) else Err(MissingSpecialty)
  }

  /** The quotes after the loop over the referrals, or the error it raised. */
  function QuotesOf(refs: seq<Referral>, table: seq<(string, real)>): Result<seq<Quote>, AssistError>
    decreases |refs|
  {
    if |refs| == 0 then Ok([])
    else
      match QuotesOf(refs[..|refs| - 1], table)
      case Err(e) => Err(e)
      case Ok(qs) =>
        var sp := refs[|refs| - 1].specialty;
        match RateFor(sp, table)
        case Err(e) => Err(e)
        case Ok(None) => Ok(qs)
        case Ok(Some(v)) => Ok(qs + [Quote(sp.value, v)])
  }

  /** Quoting fails exactly when the table has a price and some referral has no specialty. */
  lemma {:induction false} QuotesFail(refs: seq<Referral>, table: seq<(string, real)>)
    ensures QuotesOf(refs, table).Err? <==> |table| > 0 && exists i :: 0 <= i < |refs| && refs[i].specialty.None?
    decreases |refs|
  {
    if |refs| > 0 {
      var n := |refs| - 1;
      QuotesFail(refs[..n], table);
      assert forall i :: 0 <= i < n ==> refs[..n][i] == refs[i];
    }
  }

  /** Referral `r` is quoted as `q`: its specialty is that of `q`, whose self-pay price is `q`'s. */
  predicate QuotedAs(r: Referral, table: seq<(string, real)>, q: Quote)
  {
    r.specialty == Some(q.specialty) && SelfPayRate(q.specialty, table) == Some(q.selfPay)
  }

  /** The quotes are the referred specialties that have a self-pay price, each with that price. */
  lemma {:induction false} QuotesMembership(refs: seq<Referral>, table: seq<(string, real)>, q: Quote)
    requires QuotesOf(refs, table).Ok?
    ensures q in QuotesOf(refs, table).value <==> exists i :: 0 <= i < |refs| && QuotedAs(refs[i], table, q)
    decreases |refs|
  {
    if |refs| > 0 {
      var n := |refs| - 1;
      QuotesMembership(refs[..n], table, q);
      var last := refs[n];
      assert (exists i :: 0 <= i < |refs| && QuotedAs(refs[i], table, q))
        <==> (exists i :: 0 <= i < n && QuotedAs(refs[..n][i], table, q)) || QuotedAs(last, table, q)
      by {
        assert forall i :: 0 <= i < n ==> refs[..n][i] == refs[i];
      }
      QuoteStep(QuotesOf(refs[..n], table).value, last, table, q, QuotesOf(refs, table).value);
    }
  }

  /** One referral's turn of the quote loop adds a quote exactly when it is quoted. */
  lemma QuoteStep(qs: seq<Quote>, last: Referral, table: seq<(string, real)>, q: Quote, next: seq<Quote>)
    requires RateFor(last.specialty, table).Ok?
    requires RateFor(last.specialty, table).value.None? ==> next == qs
    requires RateFor(last.specialty, table).value.Some? ==>
      next == qs + [Quote(last.specialty.value, RateFor(last.specialty, table).value.value)]
    ensures q in next <==> q in qs || QuotedAs(last, table, q)
  {
  }

  /** The insurance answer, or the error the quote loop raised. */
  function InsuranceAnswer(ins: Option<string>, refs: seq<Referral>, h: Hospital): Result<Answer, AssistError>
  {
    if InsuranceIsAccepted(ins, h.acceptedInsurances) then
      Ok(NoKeys.(insurance := Present(ins.value), accepted := Present(true)))
    else if ins.Some? && ins.value != "" then
      match QuotesOf(refs, h.selfPay)
      case Err(e) => Err(e)
      case Ok(qs) => Ok(NoKeys.(insurance := Present(ins.value), accepted := Present(false), selfPayQuotes := Present(qs)))
    else
      Ok(NoKeys.(insurance := Null, accepted := Null, message := Present("No insurance on file")))
  }

  /** The tri-state: `accepted` is true when a plan on file matches ignoring case, false with
      self-pay quotes when there is a plan that does not, and `null` with a message when the
      patient has no plan. The answer never has a provider key. */
  lemma InsuranceTriState(ins: Option<string>, refs: seq<Referral>, h: Hospital)
    ensures var r := InsuranceAnswer(ins, refs, h);
      r.Ok? ==> r.value.provider.Absent? && r.value.insurance.Absent? == false
    ensures var r := InsuranceAnswer(ins, refs, h);
      r.Ok? ==> (r.value.accepted == Present(true) <==>
        ins.Some? && ins.value != "" && exists i :: 0 <= i < |h.acceptedInsurances| && EqualsIgnoreCase(ins.value, h.acceptedInsurances[i]))
    ensures var r := InsuranceAnswer(ins, refs, h);
      r.Ok? ==> (r.value.accepted == Present(false) <==>
        ins.Some? && ins.value != "" && forall i :: 0 <= i < |h.acceptedInsurances| ==> !EqualsIgnoreCase(ins.value, h.acceptedInsurances[i]))
    ensures var r := InsuranceAnswer(ins, refs, h);
      r.Ok? ==> (r.value.accepted == Null <==> ins.None? || ins.value == "")
    ensures var r := InsuranceAnswer(ins, refs, h);
      r.Ok? && r.value.accepted == Present(false) ==> r.value.selfPayQuotes == Present(QuotesOf(refs, h.selfPay).value)
    ensures InsuranceAnswer(ins, refs, h).Err? <==>
      ins.Some? && ins.value != "" && !InsuranceIsAccepted(ins, h.acceptedInsurances) && QuotesOf(refs, h.selfPay).Err?
  {
    InsuranceAcceptedIff(ins, h.acceptedInsurances);
  }

  /** The quote loop. */
  method SelfPayQuotes(refs: seq<Referral>, table: seq<(string, real)>) returns (r: Result<seq<Quote>, AssistError>)
    ensures r == QuotesOf(refs, table)
  {
    var quotes: seq<Quote> := [];
    var i := 0;
    while i < |refs|
      invariant i <= |refs|
      invariant QuotesOf(refs[..i], table) == Ok(quotes)
    {
      var sp := refs[i].specialty;
      var rate := RateFor(sp, table);
      assert refs[..i + 1][..i] == refs[..i];
      match rate {
        case Err(e) =>
          QuotesErrSticks(refs, table, i + 1);
          return Err(e);
        case Ok(None) =>
        case Ok(Some(v)) =>
          quotes := quotes + [Quote(sp.value, v)];
      }
      i := i + 1;
    }
    assert refs[..|refs|] == refs;
    r := Ok(quotes);
  }

  lemma {:induction false} QuotesErrSticks(refs: seq<Referral>, table: seq<(string, real)>, k: nat)
    requires k <= |refs| && QuotesOf(refs[..k], table).Err?
    ensures QuotesOf(refs, table) == QuotesOf(refs[..k], table)
    decreases |refs|
  {
    if k < |refs| {
      var n := |refs| - 1;
      assert refs[..n][..k] == refs[..k];
      QuotesErrSticks(refs[..n], table, k);
    } else {
      assert refs[..k] == refs;
    }
  }

  /** The insurance section of the endpoint. */
  method InsuranceAnswerFor(ins: Option<string>, refs: seq<Referral>, h: Hospital) returns (r: Result<Answer, AssistError>)
    ensures r == InsuranceAnswer(ins, refs, h)
  {
    if ins.Some? && ins.value != "" && InsuranceIsAccepted(ins, h.acceptedInsurances) {
      r := Ok(NoKeys.(insurance := Present(ins.value), accepted := Present(true)));
    } else if ins.Some? && ins.value != "" {
      var quotes := SelfPayQuotes(refs, h.selfPay);
      match quotes {
        case Err(e) => r := Err(e);
        case Ok(qs) => r := Ok(NoKeys.(insurance := Present(ins.value), accepted := Present(false), selfPayQuotes := Present(qs)));
      }
    } else {
      r := Ok(NoKeys.(insurance := Null, accepted := Null, message := Present("No insurance on file")));
    }
  }

  // ----- the endpoint -----

  /** The response for a patient, or the error quoting raises, with the `[{}]` default for a
      provider without departments applied as intended. */
  function AssistOf(h: Hospital, patient: Patient, today: Moment, wording: string): Result<AssistResult, AssistError>
  {
    var g := CompletedGroups(patient.appointments);
    var answers := ReferralAnswers(patient.referred, h.providers, g, today);
    match InsuranceAnswer(patient.insurance, patient.referred, h)
    case Err(e) => Err(e)
    case Ok(ia) => Ok(AssistResult(wording, PatientSummary(patient.name, patient.dob, patient.insurance), answers + [ia]))
  }

  /** The response as the endpoint builds it: the provider loop runs, and may raise, before
      the insurance section. */
  function AssistOfAsWritten(h: Hospital, patient: Patient, today: Moment, wording: string): Result<AssistResult, AssistError>
  {
    var g := CompletedGroups(patient.appointments);
    match ReferralAnswersAsWritten(patient.referred, h.providers, g, today)
    case Err(e) => Err(e)
    case Ok(answers) =>
      match InsuranceAnswer(patient.insurance, patient.referred, h)
      case Err(e) => Err(e)
      case Ok(ia) => Ok(AssistResult(wording, PatientSummary(patient.name, patient.dob, patient.insurance), answers + [ia]))
  }

  /** The answers are provider answers, each for a provider of the directory, followed by
      exactly one insurance answer; only that last answer has an `insurance` key. */
  lemma AssistLayout(h: Hospital, patient: Patient, today: Moment, wording: string)
    ensures var r := AssistOf(h, patient, today, wording);
      r.Ok? ==>
        |r.value.answers| > 0 && r.value.answers[|r.value.answers| - 1] == InsuranceAnswer(patient.insurance, patient.referred, h).value
    ensures var r := AssistOf(h, patient, today, wording);
      r.Ok? ==> forall k :: 0 <= k < |r.value.answers| ==>
        (r.value.answers[k].insurance.Absent? <==> k < |r.value.answers| - 1)
    ensures var r := AssistOf(h, patient, today, wording);
      r.Ok? ==> forall k :: 0 <= k < |r.value.answers| - 1 ==>
        AnswerOfOneOf(r.value.answers[k], h.providers, CompletedGroups(patient.appointments), today)
  {
    var g := CompletedGroups(patient.appointments);
    var front := ReferralAnswers(patient.referred, h.providers, g, today);
    var ir := InsuranceAnswer(patient.insurance, patient.referred, h);
    if ir.Ok? {
      ReferralAnswersFromDirectory(patient.referred, h.providers, g, today);
      InsuranceTriState(patient.insurance, patient.referred, h);
      ProvidersThenInsurance(front, ir.value, h.providers, g, today);
      assert AssistOf(h, patient, today, wording).value.answers == front + [ir.value];
    }
  }

  /** Provider answers for directory providers followed by an answer with an `insurance`
      key: only the last answer has the key, and every earlier one is a provider's answer. */
  lemma ProvidersThenInsurance(front: seq<Answer>, ia: Answer, ps: seq<Provider>, g: Groups, today: Moment)
    requires forall a :: a in front ==> AnswerOfOneOf(a, ps, g, today)
    requires !ia.insurance.Absent?
    ensures forall k :: 0 <= k < |front + [ia]| ==> ((front + [ia])[k].insurance.Absent? <==> k < |front|)
    ensures forall k :: 0 <= k < |front| ==> AnswerOfOneOf((front + [ia])[k], ps, g, today)
  {
    forall k | 0 <= k < |front|
      ensures (front + [ia])[k].insurance.Absent?
      ensures AnswerOfOneOf((front + [ia])[k], ps, g, today)
    {
      assert (front + [ia])[k] == front[k] && front[k] in front;
      var p :| p in ps && front[k] == ProviderAnswer(p, g, today);
      ProviderAnswerFacts(p, g, today);
    }
  }

  /** The patient has a plan that is not accepted, the self-pay table is not empty and some
      referral has no specialty: quoting raises. */
  predicate QuotingFails(h: Hospital, patient: Patient)
  {
    && patient.insurance.Some? && patient.insurance.value != ""
    && (forall i :: 0 <= i < |h.acceptedInsurances| ==> !EqualsIgnoreCase(patient.insurance.value, h.acceptedInsurances[i]))
    && |h.selfPay| > 0
    && exists i :: 0 <= i < |patient.referred| && patient.referred[i].specialty.None?
  }

  /** With the `[{}]` default applied as intended, the endpoint fails exactly when quoting
      fails. */
  lemma CorrectedAssistFails(h: Hospital, patient: Patient, today: Moment, wording: string)
    ensures AssistOf(h, patient, today, wording).Err? <==> QuotingFails(h, patient)
  {
    InsuranceTriState(patient.insurance, patient.referred, h);
    InsuranceAcceptedIff(patient.insurance, h.acceptedInsurances);
    QuotesFail(patient.referred, h.selfPay);
  }

  /** The endpoint as written fails exactly when some referral has a candidate without
      departments, which raises first, or quoting fails; when it answers, the response is
      the corrected one. */
  lemma AssistFails(h: Hospital, patient: Patient, today: Moment, wording: string)
    ensures AssistOfAsWritten(h, patient, today, wording).Err? <==>
      MissingDepartment(patient.referred, h.providers) || QuotingFails(h, patient)
    ensures MissingDepartment(patient.referred, h.providers) ==>
      AssistOfAsWritten(h, patient, today, wording).Err? && AssistOfAsWritten(h, patient, today, wording).error.NoDepartment?
    ensures AssistOfAsWritten(h, patient, today, wording).Ok? ==>
      AssistOfAsWritten(h, patient, today, wording) == AssistOf(h, patient, today, wording)
  {
    CorrectedAssistFails(h, patient, today, wording);
  }

  /** The inner `for p in candidates` loop; the first candidate without departments raises. */
  method CandidateAnswers(cands: seq<Provider>, g: Groups, today: Moment) returns (r: Result<seq<Answer>, AssistError>)
    ensures r == AnswersForAsWritten(cands, g, today)
    ensures r.Err? <==> LacksDepartment(cands)
  {
    var answers := [];
    var j := 0;
    while j < |cands|
      invariant j <= |cands|
      invariant AllHaveDepartments(cands, j)
      invariant answers == AnswersFor(cands[..j], g, today)
    {
      var a := AnswerFor(cands[j], g, today);
      if a.Err? {
        AnswersFailAt(cands, j, g, today);
        return Err(a.error);
      }
      HaveDepartmentsStep(cands, j);
      AnswersForStep(cands, j, g, today);
      answers := answers + [a.value];
      j := j + 1;
    }
    assert cands[..|cands|] == cands;
    AnswersAllPresent(cands, g, today);
    r := Ok(answers);
  }

  /** The first `j` candidates all have departments. */
  predicate AllHaveDepartments(cands: seq<Provider>, j: nat)
  {
    forall k :: 0 <= k < j && k < |cands| ==> |cands[k].departments| > 0
  }

  lemma HaveDepartmentsStep(cands: seq<Provider>, j: nat)
    requires j < |cands| && AllHaveDepartments(cands, j) && |cands[j].departments| > 0
    ensures AllHaveDepartments(cands, j + 1)
  {
  }

  /** A candidate without departments makes the loop raise. */
  lemma AnswersFailAt(cands: seq<Provider>, j: nat, g: Groups, today: Moment)
    requires j < |cands| && |cands[j].departments| == 0
    ensures AnswersForAsWritten(cands, g, today) == Err(NoDepartment)
  {
  }

  lemma AnswersAllPresent(cands: seq<Provider>, g: Groups, today: Moment)
    requires AllHaveDepartments(cands, |cands|)
    ensures AnswersForAsWritten(cands, g, today) == Ok(AnswersFor(cands, g, today))
  {
  }

  /** One more candidate appends its answer. */
  lemma AnswersForStep(cands: seq<Provider>, j: nat, g: Groups, today: Moment)
    requires j < |cands|
    ensures AnswersFor(cands[..j + 1], g, today) == AnswersFor(cands[..j], g, today) + [ProviderAnswer(cands[j], g, today)]
  {
    assert cands[..j + 1][..j] == cands[..j];
  }

  /** The outer `for ref in referred` loop; the first candidate without departments raises. */
  method ReferralAnswersFor(refs: seq<Referral>, ps: seq<Provider>, g: Groups, today: Moment)
    returns (r: Result<seq<Answer>, AssistError>)
    ensures r == ReferralAnswersAsWritten(refs, ps, g, today)
    ensures r.Err? <==> MissingDepartment(refs, ps)
  {
    var answers := [];
    var i := 0;
    while i < |refs|
      invariant i <= |refs|
      invariant NoneMissing(refs, ps, i)
      invariant answers == ReferralAnswers(refs[..i], ps, g, today)
    {
      var cands := CandidatesFor(ps, refs[i]);
      var more := CandidateAnswers(cands, g, today);
      if more.Err? {
        ReferralsFailAt(refs, ps, g, today, i, cands);
        return Err(more.error);
      }
      NoneMissingStep(refs, ps, i, cands);
      ReferralAnswersStep(refs, ps, g, today, i);
      assert more.value == AnswersFor(cands, g, today);
      answers := answers + more.value;
      i := i + 1;
    }
    assert refs[..|refs|] == refs;
    ReferralsAllPresent(refs, ps, g, today);
    r := Ok(answers);
  }

  lemma ReferralAnswersStep(refs: seq<Referral>, ps: seq<Provider>, g: Groups, today: Moment, i: nat)
    requires i < |refs|
    ensures ReferralAnswers(refs[..i + 1], ps, g, today)
         == ReferralAnswers(refs[..i], ps, g, today) + AnswersFor(Candidates(ps, refs[i]), g, today)
  {
    assert refs[..i + 1][..i] == refs[..i];
  }

  /** No referral before the `i`-th has a candidate without departments. */
  predicate NoneMissing(refs: seq<Referral>, ps: seq<Provider>, i: nat)
  {
    forall k :: 0 <= k < i && k < |refs| ==> !LacksDepartment(Candidates(ps, refs[k]))
  }

  lemma NoneMissingStep(refs: seq<Referral>, ps: seq<Provider>, i: nat, cands: seq<Provider>)
    requires i < |refs| && NoneMissing(refs, ps, i) && cands == Candidates(ps, refs[i]) && !LacksDepartment(cands)
    ensures NoneMissing(refs, ps, i + 1)
  {
  }

  /** A referral with a candidate without departments makes the loop raise. */
  lemma ReferralsFailAt(refs: seq<Referral>, ps: seq<Provider>, g: Groups, today: Moment, i: nat, cands: seq<Provider>)
    requires i < |refs| && cands == Candidates(ps, refs[i]) && LacksDepartment(cands)
    ensures ReferralAnswersAsWritten(refs, ps, g, today) == Err(NoDepartment)
  {
  }

  lemma ReferralsAllPresent(refs: seq<Referral>, ps: seq<Provider>, g: Groups, today: Moment)
    requires NoneMissing(refs, ps, |refs|)
    ensures ReferralAnswersAsWritten(refs, ps, g, today) == Ok(ReferralAnswers(refs, ps, g, today))
  {
  }

  /** Lines 49-107 of the endpoint, once the patient record has been fetched. */
  method AssistBody(h: Hospital, patient: Patient, today: Moment, wording: string)
    returns (r: Result<AssistResult, AssistError>)
    ensures r == AssistOfAsWritten(h, patient, today, wording)
  {
    var g := GroupCompletedVisits(patient.appointments);
    var provided := ReferralAnswersFor(patient.referred, h.providers, g, today);
    if provided.Err? {
      return Err(provided.error);
    }
    var ins := InsuranceAnswerFor(patient.insurance, patient.referred, h);
    match ins {
      case Err(e) =>
        r := Err(e);
      case Ok(ia) =>
        r := Ok(AssistResult(wording, PatientSummary(patient.name, patient.dob, patient.insurance), provided.value + [ia]));
    }
  }
}
