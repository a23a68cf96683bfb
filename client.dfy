/** The page of `frontend/src/App.tsx`: the conversation, the projection of the latest
    structured answer into provider cards and an insurance badge, the card filter, the
    suggested-slot text and the `ask` round trip. The request itself is an input: a
    response body or a failure message. */
module Client {
  import opened Wrappers
  import opened Text
  import opened Seqs
  import opened Payload
  import Calendar
  import Logic
  import Directory
  import Search
  import Assist

  datatype Role = Nurse | Assistant

  /** One bubble of the conversation; assistant turns that answered a request carry the response. */
  datatype Turn = Turn(role: Role, text: string, payload: Option<AssistResult>)

  /** The assistant's opening bubble, which has no payload. */
  const Greeting: Turn := Turn(Assistant,
    "Hi! Ask me patient and scheduling details. Try: \U{201C}Give me the patient\U{2019}s first name, last name, and DOB.\U{201D} or \U{201C}Who is the provider for the next appointment?\U{201D}",
    None)

  // ----- the answers projection -----

  predicate CarriesPayload(t: Turn)
  {
    t.role == Assistant && t.payload.Some?
  }

  /** The payload of the latest assistant turn that has one. */
  function LatestPayload(conv: seq<Turn>): Option<AssistResult>
  {
    if |conv| == 0 then None
    else if CarriesPayload(conv[|conv| - 1]) then conv[|conv| - 1].payload
    else LatestPayload(conv[..|conv| - 1])
  }

  /** No payload at all exactly when no assistant turn carries one; otherwise the payload is
      that of a turn after which no turn carries one. */
  lemma {:induction false} LatestPayloadIsLatest(conv: seq<Turn>)
    ensures LatestPayload(conv).None? <==> forall i :: 0 <= i < |conv| ==> !CarriesPayload(conv[i])
    ensures LatestPayload(conv).Some? ==>
      exists i :: 0 <= i < |conv| && CarriesPayload(conv[i]) && conv[i].payload == LatestPayload(conv)
        && forall j :: i < j < |conv| ==> !CarriesPayload(conv[j])
  {
    if |conv| > 0 {
      var init := conv[..|conv| - 1];
      LatestPayloadIsLatest(init);
      if !CarriesPayload(conv[|conv| - 1]) {
        assert forall i :: 0 <= i < |init| ==> init[i] == conv[i];
        if LatestPayload(conv).Some? {
          var i :| 0 <= i < |init| && CarriesPayload(init[i]) && init[i].payload == LatestPayload(init)
            && forall j :: i < j < |init| ==> !CarriesPayload(init[j]);
          assert conv[i] == init[i];
        }
      }
    }
  }

  /** A new turn without a payload (every nurse turn) keeps the latest payload; an assistant
      turn with one replaces it. */
  lemma LatestPayloadAfterTurn(conv: seq<Turn>, t: Turn)
    ensures LatestPayload(conv + [t]) == if CarriesPayload(t) then t.payload else LatestPayload(conv)
  {
    assert (conv + [t])[..|conv|] == conv;
  }

  /** `last?.payload?.result?.answers || []`. */
  function AnswersOf(conv: seq<Turn>): seq<Answer>
  {
    match LatestPayload(conv)
    case None => []
    case Some(data) => data.answers
  }

  /** JavaScript truthiness of a string key: set and not empty. */
  predicate Truthy(f: Field<string>)
  {
    f.Present? && f.value != ""
  }

  /** An answer shown as a provider card: its `provider` key is truthy. */
  predicate IsProviderCard(a: Answer)
  {
    Truthy(a.provider)
  }

  /** `list.filter(a => a.provider)`. */
  function ProviderCards(list: seq<Answer>): seq<Answer>
  {
    Filter(list, IsProviderCard)
  }

  /** `list.find(a => a.insurance !== undefined)`: a `null` insurance key counts. */
  function FirstInsurance(list: seq<Answer>): Option<Answer>
  {
    if |list| == 0 then None
    else if !list[0].insurance.Absent? then Some(list[0])
    else FirstInsurance(list[1..])
  }

  /** The answer found is the first one with an `insurance` key, and there is none exactly when
      no answer has that key. */
  lemma {:induction false} FirstInsuranceIsFirst(list: seq<Answer>)
    ensures FirstInsurance(list).None? <==> forall i :: 0 <= i < |list| ==> list[i].insurance.Absent?
    ensures forall i :: 0 <= i < |list| && !list[i].insurance.Absent? && (forall j :: 0 <= j < i ==> list[j].insurance.Absent?) ==>
      FirstInsurance(list) == Some(list[i])
  {
    if |list| > 0 && list[0].insurance.Absent? {
      var rest := list[1..];
      FirstInsuranceIsFirst(rest);
      assert forall i :: 0 < i < |list| ==> list[i] == rest[i - 1];
      forall i | 0 <= i < |list| && !list[i].insurance.Absent? && (forall j :: 0 <= j < i ==> list[j].insurance.Absent?)
        ensures FirstInsurance(list) == Some(list[i])
      {
        assert i > 0 && rest[i - 1] == list[i];
        assert forall j :: 0 <= j < i - 1 ==> rest[j] == list[j + 1];
      }
    }
  }

  /** What the results panel shows: the provider cards and the insurance answer, if any. */
  datatype Projection = Projection(providers: seq<Answer>, insurance: Option<Answer>)

  function ProjectAnswers(list: seq<Answer>): Projection
  {
    Projection(ProviderCards(list), FirstInsurance(list))
  }

  /** The `answers` memo over the conversation. */
  function Project(conv: seq<Turn>): Projection
  {
    ProjectAnswers(AnswersOf(conv))
  }

  /** The cards are the answers with a truthy provider, in response order; with no payload in
      the conversation there are no cards and no insurance answer. */
  lemma ProjectionFacts(conv: seq<Turn>, a: Answer)
    ensures IsSubseq(Project(conv).providers, AnswersOf(conv))
    ensures a in Project(conv).providers <==> a in AnswersOf(conv) && IsProviderCard(a)
    ensures (forall i :: 0 <= i < |conv| ==> !CarriesPayload(conv[i])) ==>
      Project(conv).providers == [] && Project(conv).insurance.None?
  {
    FilterIsSubseq(AnswersOf(conv), IsProviderCard);
    FilterMembership(AnswersOf(conv), IsProviderCard, a);
    LatestPayloadIsLatest(conv);
  }

  /** A turn without a payload leaves the panel as it was; a response replaces it. */
  lemma ProjectionAfterTurn(conv: seq<Turn>, t: Turn)
    ensures Project(conv + [t]) == if CarriesPayload(t) then ProjectAnswers(t.payload.value.answers) else Project(conv)
  {
    LatestPayloadAfterTurn(conv, t);
  }

  /** The page opens with an empty panel. */
  lemma InitialProjection()
    ensures Project([Greeting]) == Projection([], None)
  {
    assert !CarriesPayload(Greeting) && [Greeting][..0] == [];
    assert LatestPayload([Greeting]) == None;
  }

  // ----- the card filter -----

  /** A key as `Array.join` and `|| ""` render it: a missing or `null` key is empty. */
  function FieldText(f: Field<string>): string
  {
    if f.Present? then f.value else ""
  }

  /** `[p.provider, p.specialty, p.department].join(" ")`. */
  function CardText(a: Answer): string
  {
    JoinWith([FieldText(a.provider), FieldText(a.specialty), FieldText(a.department)], ' ')
  }

  /** An empty filter text passes everything; otherwise it must occur, ignoring case, in the card text. */
  predicate MatchesText(a: Answer, filterText: string)
  {
    filterText == "" || Contains(LowerStr(CardText(a)), LowerStr(filterText))
  }

  /** `ALL` passes everything; otherwise the upper-cased appointment type must equal the filter. */
  predicate MatchesType(a: Answer, filterType: string)
  {
    filterType == "ALL" || UpperStr(FieldText(a.appointmentType)) == filterType
  }

  predicate Shown(a: Answer, filterText: string, filterType: string)
  {
    MatchesText(a, filterText) && MatchesType(a, filterType)
  }

  /** The `filteredProviders` memo. */
  function FilteredProviders(cards: seq<Answer>, filterText: string, filterType: string): seq<Answer>
  {
    Filter(cards, (a: Answer) => Shown(a, filterText, filterType))
  }

  /** The filter keeps card order and keeps exactly the cards that pass both predicates. */
  lemma FilteredSelection(cards: seq<Answer>, filterText: string, filterType: string, a: Answer)
    ensures IsSubseq(FilteredProviders(cards, filterText, filterType), cards)
    ensures a in FilteredProviders(cards, filterText, filterType) <==>
      a in cards && MatchesText(a, filterText) && MatchesType(a, filterType)
  {
    FilterIsSubseq(cards, (b: Answer) => Shown(b, filterText, filterType));
    FilterMembership(cards, (b: Answer) => Shown(b, filterText, filterType), a);
  }

  /** With no text and `ALL` every card is shown, in order. */
  lemma FilterIdentity(cards: seq<Answer>)
    ensures FilteredProviders(cards, "", "ALL") == cards
  {
    FilterKeepsAll(cards, (b: Answer) => Shown(b, "", "ALL"));
  }

  lemma LowerAppend(x: string, y: string)
    ensures LowerStr(x + y) == LowerStr(x) + LowerStr(y)
  {
    assert forall i :: 0 <= i < |x| ==> (x + y)[i] == x[i];
    assert forall i :: |x| <= i < |x| + |y| ==> (x + y)[i] == y[i - |x|];
  }

  lemma ContainsInPrefix(x: string, y: string, p: string)
    requires Contains(x, p)
    ensures Contains(x + y, p)
  {
    ContainsIff(x, p);
    var j :| OccursAt(x, p, j);
    assert (x + y)[j..j + |p|] == x[j..j + |p|];
    assert OccursAt(x + y, p, j);
    ContainsIff(x + y, p);
  }

  /** A card whose provider name contains the filter text, ignoring case, is kept by the text predicate. */
  lemma NameHitIsShown(a: Answer, filterText: string)
    requires Contains(LowerStr(FieldText(a.provider)), LowerStr(filterText))
    ensures MatchesText(a, filterText)
  {
    var name := FieldText(a.provider);
    var rest := [' '] + JoinWith([FieldText(a.specialty), FieldText(a.department)], ' ');
    assert CardText(a) == name + rest;
    LowerAppend(name, rest);
    ContainsInPrefix(LowerStr(name), LowerStr(rest), LowerStr(filterText));
  }

  lemma UpperOfLiteral(s: string)
    requires forall i :: 0 <= i < |s| ==> !('a' <= s[i] <= 'z')
    ensures UpperStr(s) == s
  {
  }

  /** On a card the backend produced, the `ESTABLISHED` filter keeps exactly the providers the
      patient last saw within 5 * 365 days, and `NEW` exactly the others. */
  lemma TypeFilterOnProviderAnswer(p: Directory.Provider, g: Assist.Groups, today: Calendar.Moment)
    ensures var a := Assist.ProviderAnswer(p, g, today);
      MatchesType(a, "ESTABLISHED") <==> Logic.IsEstablished(Assist.LastCompleted(g, Before(p.name, ",")), today)
    ensures var a := Assist.ProviderAnswer(p, g, today);
      MatchesType(a, "NEW") <==> !Logic.IsEstablished(Assist.LastCompleted(g, Before(p.name, ",")), today)
  {
    Assist.ProviderAnswerFacts(p, g, today);
    TypeFilterOnType(Assist.ProviderAnswer(p, g, today), Logic.IsEstablished(Assist.LastCompleted(g, Before(p.name, ",")), today));
  }

  lemma TypeFilterOnType(a: Answer, established: bool)
    requires a.appointmentType == Present(if established then "ESTABLISHED" else "NEW")
    ensures MatchesType(a, "ESTABLISHED") <==> established
    ensures MatchesType(a, "NEW") <==> !established
  {
    UpperOfLiteral("ESTABLISHED");
    UpperOfLiteral("NEW");
  }

  // ----- the insurance badge -----

  datatype Tone = Neutral | Success | Danger

  /** `badgeTone`: only a strict `true` is success and only a strict `false` is danger. */
  function BadgeTone(ins: Option<Answer>): Tone
  {
    if ins.Some? && ins.value.accepted == Present(true) then Success
    else if ins.Some? && ins.value.accepted == Present(false) then Danger
    else Neutral
  }

  /** The badge text after its icon. */
  function BadgeLabel(ins: Option<Answer>): string
  {
    if ins.Some? && ins.value.accepted == Present(true) then FieldText(ins.value.insurance) + " accepted"
    else if ins.Some? && ins.value.accepted == Present(false) then FieldText(ins.value.insurance) + " not accepted"
    else "Insurance unknown"
  }

  /** Tone and label agree: the label reads "Insurance unknown" exactly when the tone is
      neutral, and otherwise names the plan and says whether it is accepted. */
  lemma BadgeAgrees(ins: Option<Answer>)
    ensures BadgeTone(ins) == Neutral <==> BadgeLabel(ins) == "Insurance unknown"
    ensures BadgeTone(ins) == Success ==> BadgeLabel(ins) == FieldText(ins.value.insurance) + " accepted"
    ensures BadgeTone(ins) == Danger ==> BadgeLabel(ins) == FieldText(ins.value.insurance) + " not accepted"
  {
    var l := BadgeLabel(ins);
    if BadgeTone(ins) != Neutral {
      assert l[|l| - 1] == 'd';
      assert "Insurance unknown"[16] == 'n';
    }
  }

  // ----- the panel after a response -----

  lemma FirstInsuranceIsLast(list: seq<Answer>)
    requires |list| > 0 && !list[|list| - 1].insurance.Absent?
    requires forall k :: 0 <= k < |list| - 1 ==> list[k].insurance.Absent?
    ensures FirstInsurance(list) == Some(list[|list| - 1])
  {
    FirstInsuranceIsFirst(list);
  }

  /** A response laid out as provider answers followed by one insurance answer shows that
      insurance answer on the badge and the named provider answers as cards. */
  lemma PanelOfLayout(list: seq<Answer>, ia: Answer)
    requires |list| > 0 && list[|list| - 1] == ia && !ia.insurance.Absent? && ia.provider.Absent?
    requires forall k :: 0 <= k < |list| - 1 ==> list[k].insurance.Absent?
    ensures ProjectAnswers(list) == Projection(ProviderCards(list[..|list| - 1]), Some(ia))
  {
    FirstInsuranceIsFirst(list);
    assert list == list[..|list| - 1] + [ia];
    FilterAppend(list[..|list| - 1], [ia], IsProviderCard);
    assert Filter([ia], IsProviderCard) == [] by {
      assert [ia][..0] == [];
    }
  }

  /** When `/assist` answers, the badge shows the endpoint's insurance answer and the cards are
      exactly its provider answers with a non-empty name: success when the patient's plan is on
      the accepted list, danger when there is a plan that is not, neutral without a plan. */
  lemma PanelAfterResponse(h: Directory.Hospital, patient: Assist.Patient, today: Calendar.Moment, wording: string, conv: seq<Turn>)
    requires Assist.AssistOfAsWritten(h, patient, today, wording).Ok?
    ensures var r := Assist.AssistOfAsWritten(h, patient, today, wording).value;
      var pr := Project(conv + [Turn(Assistant, r.wording, Some(r))]);
      && pr.insurance == Some(Assist.InsuranceAnswer(patient.insurance, patient.referred, h).value)
      && pr.providers == ProviderCards(r.answers[..|r.answers| - 1])
    ensures var r := Assist.AssistOfAsWritten(h, patient, today, wording).value;
      var pr := Project(conv + [Turn(Assistant, r.wording, Some(r))]);
      && (BadgeTone(pr.insurance) == Success <==> Logic.InsuranceIsAccepted(patient.insurance, h.acceptedInsurances))
      && (BadgeTone(pr.insurance) == Danger <==>
            patient.insurance.Some? && patient.insurance.value != "" && !Logic.InsuranceIsAccepted(patient.insurance, h.acceptedInsurances))
      && (BadgeTone(pr.insurance) == Neutral <==> patient.insurance.None? || patient.insurance.value == "")
  {
    Assist.AssistFails(h, patient, today, wording);
    var r := Assist.AssistOf(h, patient, today, wording).value;
    var ir := Assist.InsuranceAnswer(patient.insurance, patient.referred, h);
    ProjectionAfterTurn(conv, Turn(Assistant, r.wording, Some(r)));
    Assist.AssistLayout(h, patient, today, wording);
    Assist.InsuranceTriState(patient.insurance, patient.referred, h);
    Logic.InsuranceAcceptedIff(patient.insurance, h.acceptedInsurances);
    PanelOfLayout(r.answers, ir.value);
  }

  // ----- the suggested slot -----

  /** What the slot line shows: nothing, or the local rendering of an ISO date-time. */
  datatype SlotText = Blank | Local(iso: string)

  /** `` `${datePart}T${timePart}:00` `` with `[datePart, timePart] = s.split(" ")`; a missing
      time part prints as `undefined`. */
  function SlotIso(s: string): string
  {
    var parts := SplitOn(s, ' ');
    parts[0] + "T" + (if |parts| > 1 then parts[1] else "undefined") + ":00"
  }

  /** `formatSlot`: an empty or missing slot shows nothing. */
  function FormatSlot(s: Field<string>): SlotText
  {
    if Truthy(s) then Local(SlotIso(s.value)) else Blank
  }

  /** A slot the backend printed becomes the ISO local date-time of the same minute. */
  lemma SlotIsoOfMoment(t: Calendar.Moment)
    ensures SlotIso(Calendar.FormatMoment(t)) ==
      Calendar.FormatDate(Calendar.DateOf(t)) + "T" + Pad(Calendar.HourOf(t), 2) + ":" + Pad(Calendar.MinuteOf(t), 2) + ":00"
  {
    var d := Calendar.DateOf(t);
    var date := Calendar.FormatDate(d);
    var time := Pad(Calendar.HourOf(t), 2) + ":" + Pad(Calendar.MinuteOf(t), 2);
    DigitsHaveNoSeparator(Pad(d.year, 4), ' ');
    DigitsHaveNoSeparator(Pad(d.month, 2), ' ');
    DigitsHaveNoSeparator(Pad(d.day, 2), ' ');
    DigitsHaveNoSeparator(Pad(Calendar.HourOf(t), 2), ' ');
    DigitsHaveNoSeparator(Pad(Calendar.MinuteOf(t), 2), ' ');
    assert ' ' !in date;
    assert ' ' !in time;
    assert Calendar.FormatMoment(t) == date + [' '] + time;
    FirstSeparator(date, time, ' ');
    NoSeparator(time, ' ');
    assert (date + [' '] + time)[..|date|] == date;
    assert (date + [' '] + time)[|date| + 1..] == time;
  }

  /** Every provider card from the backend shows its suggested slot as the ISO local date-time
      of the slot `next_open_slot` found. */
  lemma SlotOfProviderAnswer(p: Directory.Provider, g: Assist.Groups, today: Calendar.Moment)
    ensures var t := Search.NextSlot(p, today);
      FormatSlot(Assist.ProviderAnswer(p, g, today).suggestedSlot) ==
        Local(Calendar.FormatDate(Calendar.DateOf(t)) + "T" + Pad(Calendar.HourOf(t), 2) + ":" + Pad(Calendar.MinuteOf(t), 2) + ":00")
  {
    var t := Search.NextSlot(p, today);
    Assist.ProviderAnswerFacts(p, g, today);
    SlotIsoOfMoment(t);
  }

  // ----- ask -----

  /** How the request settled: the response body, or the failure's message (possibly empty). */
  datatype Outcome = Delivered(data: AssistResult) | Failed(reason: string)

  /** `e?.message || "Request failed"`. */
  function ErrorText(reason: string): (r: string)
    ensures r != ""
    ensures reason != "" ==> r == reason
  {
    if reason == "" then "Request failed" else reason
  }

  /** The page's state. `busy` only drives the spinner: nothing stops a second request. */
  class Session {
    var message: string
    var busy: bool
    var error: Option<string>
    var conversation: seq<Turn>

    constructor ()
      ensures message == "" && !busy && error.None? && conversation == [Greeting]
      ensures Project(conversation) == Projection([], None)
    {
      message := "";
      busy := false;
      error := None;
      conversation := [Greeting];
      InitialProjection();
    }

    /** The text area's `onChange`. */
    method Edit(text: string)
      modifies this
      ensures message == text
      ensures busy == old(busy) && error == old(error) && conversation == old(conversation)
    {
      message := text;
    }

    /** The synchronous start of `ask()`: a blank message does nothing; otherwise the error is
        cleared, the spinner starts and the trimmed text is appended as a nurse turn. */
    method Begin() returns (content: Option<string>)
      modifies this
      ensures content == if Strip(old(message)) == "" then None else Some(Strip(old(message)))
      ensures content.None? ==>
        message == old(message) && busy == old(busy) && error == old(error) && conversation == old(conversation)
      ensures content.Some? ==>
        message == old(message) && busy && error.None? && conversation == old(conversation) + [Turn(Nurse, content.value, None)]
    {
      var trimmed := Strip(message);
      if trimmed == "" {
        return None;
      }
      error := None;
      busy := true;
      conversation := conversation + [Turn(Nurse, trimmed, None)];
      content := Some(trimmed);
    }

    /** The rest of `ask()` once the request settles: a response is appended as an assistant
        turn and the text area is cleared; a failure sets the error and keeps the text. */
    method Settle(outcome: Outcome)
      modifies this
      ensures !busy
      ensures outcome.Delivered? ==>
        && conversation == old(conversation) + [Turn(Assistant, outcome.data.wording, Some(outcome.data))]
        && message == "" && error == old(error)
      ensures outcome.Failed? ==>
        conversation == old(conversation) && message == old(message) && error == Some(ErrorText(outcome.reason))
    {
      busy := false;
      match outcome
      case Delivered(data) =>
        conversation := conversation + [Turn(Assistant, data.wording, Some(data))];
        message := "";
      case Failed(reason) =>
        error := Some(if reason == "" then "Request failed" else reason);
    }

    /** `ask()` from start to finish. After a response the panel shows that response; after a
        failure it is unchanged. */
    method Ask(outcome: Outcome) returns (content: Option<string>)
      modifies this
      ensures content == if Strip(old(message)) == "" then None else Some(Strip(old(message)))
      ensures content.None? ==>
        message == old(message) && busy == old(busy) && error == old(error) && conversation == old(conversation)
      ensures content.Some? && outcome.Delivered? ==>
        && conversation == old(conversation) + [Turn(Nurse, content.value, None),
                                                Turn(Assistant, outcome.data.wording, Some(outcome.data))]
        && message == "" && !busy && error.None?
        && Project(conversation) == ProjectAnswers(outcome.data.answers)
      ensures content.Some? && outcome.Failed? ==>
        && conversation == old(conversation) + [Turn(Nurse, content.value, None)]
        && message == old(message) && !busy && error == Some(ErrorText(outcome.reason))
        && Project(conversation) == Project(old(conversation))
    {
      content := Begin();
      if content.Some? {
        ghost var sent := conversation;
        ProjectionAfterTurn(old(conversation), Turn(Nurse, content.value, None));
        Settle(outcome);
        if outcome.Delivered? {
          ProjectionAfterTurn(sent, Turn(Assistant, outcome.data.wording, Some(outcome.data)));
          assert sent + [Turn(Assistant, outcome.data.wording, Some(outcome.data))]
            == old(conversation) + [Turn(Nurse, content.value, None), Turn(Assistant, outcome.data.wording, Some(outcome.data))];
        }
      }
    }
  }
}
