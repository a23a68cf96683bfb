# Care Coordinator Assistant — a Dafny model of its scheduling core

The Care Coordinator Assistant helps a nurse book a patient with the right provider. The
backend reads the hospital's data sheet: providers, their departments and office hours,
accepted insurances and self-pay prices. The `/assist` endpoint takes the patient's record
and builds a structured answer:

- one answer per candidate provider for each referral, carrying a NEW or ESTABLISHED
  appointment type and the next open half-hour slot;
- followed by one insurance answer: accepted, not accepted with self-pay quotes, or
  unknown.

The page shows the latest such answer as provider cards with a text and type filter, and
an insurance badge.

This project models that core and proves what each part promises.

- `wrappers.dfy`: `Option` and `Result`.
- `seqs.dfy`:
  - `Seqs` holds order-preserving filtering, the subsequence relation and `Map`.
  - `Dicts` holds Python dictionaries as insertion-ordered key/value sequences, with `setdefault(k, []).append(v)` grouping.
- `text.dfy`: ASCII string operations (`lower`, `upper`, `strip`, `split`, `in`, `join`), decimal numerals and zero padding.
- `calendar.dfy`: time as minutes since 0001-01-01 00:00 (proleptic Gregorian), `weekday()`, `strftime` and the `strptime` formats the backend uses.
- `logic.py` → `logic.dfy` (`Logic`): established patients, appointment length, insurance acceptance, self-pay rates.
- `providers.py`:
  - `hours.dfy` (`Hours`): `_to24`, the hours regular expression as a hand-written matcher, `_parse_hours`;
  - `directory.dfy` (`Directory`): `load_hospital_data` as a line-by-line state machine;
  - `search.dfy` (`Search`): `find_providers`, `provider_is_open_on`, `next_open_slot`.
- `app.py` lines 48-107 → `payload.dfy` (`Payload`, the response JSON) and `assist.dfy` (`Assist`).
- `App.tsx` → `client.dfy` (`Client`):
  - the answers projection, the provider filter and the insurance badge;
  - the slot text;
  - `ask()`, as a `Session` class whose methods update the page state.

Loops in the source are `method`s with loop invariants. Each one is proved equal to a
function that specifies it, and the lemmas are stated about those functions.

## Model

| member | source | states |
|---|---|---|
| Logic.ParseVisitDate | backend/logic.py:11-16 | a visit date reads as a valid date exactly when `%m/%d/%y` or `%Y-%m-%d` accepts it, and the date read is the one one of those formats gives |
| Logic.AppointmentType | backend/logic.py:19-20 | the type is always `ESTABLISHED` or `NEW`, and `ESTABLISHED` exactly when the patient is established |
| Logic.EstablishedWindow | backend/logic.py:7-17 | a visit written `%Y-%m-%d` for date `d` makes the patient established exactly when today is at most 5 * 365 days after midnight of `d` (future visits included) |
| Logic.EstablishedWindowMDY | backend/logic.py:7-17 | the same window for a visit written `%m/%d/%y`, for the years 1969 to 2068 that `%y` reads back |
| Logic.EstablishedEarlier | backend/logic.py:7-17 | being established on a day implies being established on every earlier day |
| Logic.AppointmentMinutes | backend/logic.py:22-23 | the length is 15 exactly when the upper-cased type is `ESTABLISHED`, otherwise 30 (the default of `APPT_MINUTES.get`) |
| Logic.MinutesOfType | backend/logic.py:19-23 | the computed appointment type maps to 15 minutes if established and 30 if new |
| Logic.InsuranceAcceptedIff | backend/logic.py:25-27 | a plan is accepted exactly when it is present, non-empty and equal to some accepted plan ignoring case |
| Logic.AnyEqualIgnoringCaseIff | backend/logic.py:27 | the recursive `any(...)` holds exactly when some element matches ignoring case |
| Logic.SelfPayRate | backend/logic.py:29-33 | no rate exactly when no table key matches the specialty ignoring case; otherwise the price of the first matching key in table order |
| Calendar.ISORoundTrip | backend/logic.py:11-13 | `strptime(..., "%Y-%m-%d")` of what `strftime("%Y-%m-%d")` printed gives the same date back |
| Calendar.MDYRoundTrip | backend/logic.py:11-13 | parsing the `%m/%d/%y` text of a valid date from 1969 to 2068 returns that date |
| Calendar.DateRoundTrip | backend/logic.py:13-14 | converting a valid date to its day number and back gives the same date, so date differences are exact day counts |
| Calendar.FormatMomentShape | backend/app.py:88 | `strftime("%Y-%m-%d %H:%M")` of a moment in years 1-9999 has sixteen characters, digits apart from `-`, `-`, ` `, `:` at positions 4, 7, 10, 13 |
| Hours.WeekdayMapIsBijection | backend/providers.py:7 | the seven abbreviations map one-to-one onto weekdays 0-6 |
| Hours.To24Bijection | backend/providers.py:9-14 | on readings 1-12 am/pm, `_to24` is a bijection onto hours 0-23 (12am is 0, 12pm is 12) |
| Hours.MatchRender | backend/providers.py:18-21 | the canonical spelling of any well-formed groups, followed by any text, matches the pattern with exactly those groups |
| Hours.ParseHours | backend/providers.py:16-36 | the method returns what `HoursRules` specifies: no rules without a match, `KeyError` for an unknown start day, else the expanded rules |
| Hours.ExpandRules | backend/providers.py:21-36 | the `while True` walk over weekdays returns `RulesOf` of the match |
| Hours.DayRangeEnds | backend/providers.py:31-35 | a day range starts at the start day and ends at the end day; from a day to itself it is that day alone |
| Hours.DayRangeSteps | backend/providers.py:31-35 | a day range advances one weekday at a time, wrapping Sunday to Monday |
| Hours.DayRangeMembers | backend/providers.py:31-35 | a weekday is in the range exactly when it is no further forward from the start than the end day is |
| Hours.DayRangeDistinct | backend/providers.py:31-35 | no weekday occurs twice in a range |
| Hours.RulesOfShareHours | backend/providers.py:22-36 | every rule carries the converted start and end hours; expansion fails exactly when the start day is not in `WEEKDAY_MAP` |
| Hours.RulesOfRange | backend/providers.py:25-36 | with two known days, rules cover exactly the weekdays from start forward to end |
| Directory.LoadHospitalData | backend/providers.py:38-101 | the outer loop returns what `LoadHospital` specifies for the lines of the sheet |
| Directory.ReadProviderLine | backend/providers.py:60-83 | one line of the provider section: new provider, certification, specialty or department block, as `ProviderStep` specifies |
| Directory.ReadDepartment | backend/providers.py:70-83 | the inner loop absorbs department field lines from the given line on, as `DeptFrom` specifies |
| Directory.ReadField | backend/providers.py:74-81 | one field line sets name, phone, address or hours (with parsed rules) of the department |
| Directory.DeptFrom | backend/providers.py:72-83 | the block ends at the first line that is not a department field line, and every line it absorbed is one |
| Directory.SelfPayLineRoundTrip | backend/providers.py:87-95 | a line `- Specialty: $price` reads back as that specialty and price |
| Directory.SelfPaySkipsUnmarked | backend/providers.py:90 | a self-pay item without `:` or without `$` is skipped |
| Directory.PriceOfDecimal | backend/providers.py:93 | `float` of digits, a point and digits is the whole part plus the fraction |
| Directory.CentsValue | backend/providers.py:93 | dollars and two-digit cents read back as dollars plus cents / 100 |
| Directory.ReadLine | backend/providers.py:48-96 | one turn of the outer loop: a section header switches the section and the section in force decides how the line is read, as `Step` specifies |
| Directory.ReadInsuranceLine | backend/providers.py:84-86 | in the insurance section a `- ` item is appended to the accepted plans and any other line is ignored |
| Directory.ReadSelfPayLine | backend/providers.py:87-95 | in the self-pay section a well-formed item sets its specialty's price and any other line is ignored |
| Directory.ScanStep | backend/providers.py:48-96 | the loop from line `i` is one turn followed by the loop from where that turn left off, or the turn's error |
| Directory.LoadHospitalContents | backend/providers.py:38-101 | a successful load gives the insurance items of the insurance section in order; the price table of well-formed self-pay items, later items overriding earlier ones; and the providers named by the directory's `- ` lines that no department block absorbed, in order |
| Search.FindProviders | backend/providers.py:103-111 | the loop returns `Found`: the providers passing both filters |
| Search.FoundIsOrderedSelection | backend/providers.py:103-111 | the result is a subsequence of the directory and holds a provider exactly when it is listed and passes the case-insensitive specialty and name filters |
| Search.FoundWithoutFilters | backend/providers.py:106-108 | with absent or empty filters every provider is returned, in order |
| Search.ProviderIsOpenOn | backend/providers.py:113-120 | the provider is open exactly when it has a department and a rule of the first one covers the weekday and hour |
| Search.FirstBoundaryIsNext | backend/providers.py:124-125 | the first candidate is the least half-hour boundary strictly after `dt` |
| Search.SlotSearchNone | backend/providers.py:127-131 | the search finds nothing exactly when none of the remaining candidates is open |
| Search.SlotSearchSome | backend/providers.py:127-131 | what the search finds is the first open candidate |
| Search.NextSlotIsFirstOpen | backend/providers.py:122-132 | the slot is the first open half-hour candidate within a week, or `dt` itself when none is open |
| Search.NextSlotAfter | backend/providers.py:122-132 | a found slot lies on a half-hour boundary after `dt` and the provider is open then |
| Search.NextOpenSlot | backend/providers.py:122-132 | the loop returns `NextSlot` |
| Assist.GroupCompletedVisits | backend/app.py:49-53 | the grouping loop returns `CompletedGroups` |
| Assist.GroupsCollectDates | backend/app.py:49-53 | a provider key is present exactly when some completed appointment has it, holding exactly those appointments' dates in record order |
| Assist.LatestDateIsLatest | backend/app.py:71-75 | when every date parses, the result is the latest date (the last of equal latest ones); otherwise it is the last date recorded |
| Assist.LastCompletedIsLastMatch | backend/app.py:68-75 | with no provider key containing the surname the last visit is unknown; otherwise the last matching key decides it |
| Assist.LastVisitIsCompleted | backend/app.py:49-75 | a known last visit is the date of a completed appointment whose provider key contains the surname |
| Assist.LastCompletedVisit | backend/app.py:68-75 | the loop over the groups returns `LastCompleted` |
| Assist.CandidatesChoice | backend/app.py:57-65 | candidates keep directory order; they are the surname matches when a named referral finds any, else the providers of the referred specialty |
| Assist.CandidatesFor | backend/app.py:58-65 | the candidate choice returns `Candidates` |
| Assist.ProviderAnswerFacts | backend/app.py:76-89 | an answer names its provider, has no insurance keys, is ESTABLISHED exactly when the last completed visit with that surname makes the patient established, and suggests `next_open_slot`'s slot |
| Assist.NoDepartmentCounterexample | backend/app.py:83-86 | a provider listed without departments makes the endpoint raise, where the corrected answer has `null` department fields |
| Assist.AsWrittenAgreesWithDepartments | backend/app.py:83-86 | the as-written answer raises exactly for providers without departments and otherwise equals the corrected answer |
| Assist.AnswerFor | backend/app.py:66-89 | the body of the candidate loop returns `ProviderAnswerAsWritten`: it raises `NoDepartment` for a provider without departments |
| Assist.EachAt | backend/app.py:66-89 | appending one result per element keeps positions: the `k`-th result is the one for the `k`-th element, and there is one per element |
| Assist.AnswerAt | backend/app.py:66-89 | the candidate answers line up with the candidates: one each, the `k`-th answer for the `k`-th candidate |
| Assist.AnswersForMembership | backend/app.py:66-89 | every answer for a candidate list is the answer for one of those candidates |
| Assist.ReferralAnswersFromDirectory | backend/app.py:57-89 | every provider answer is the answer for a provider of the directory |
| Assist.CandidateAnswers | backend/app.py:66-89 | the candidate loop, which stops at the first raise, returns `AnswersForAsWritten`: it raises `NoDepartment` exactly when some candidate has no departments, and otherwise gives one answer per candidate in order |
| Assist.ReferralAnswersFor | backend/app.py:57-89 | the referral loop, which stops at the first raise, returns `ReferralAnswersAsWritten`: it raises `NoDepartment` exactly when some referral has a candidate without departments, and otherwise gives the candidate answers referral by referral |
| Assist.QuotesFail | backend/app.py:98-103 | quoting raises exactly when the self-pay table has an entry and some referral has no specialty |
| Assist.QuotesMembership | backend/app.py:98-103 | the quotes are the referred specialties with a self-pay price, each with that price |
| Assist.QuotesErrSticks | backend/app.py:98-103 | once the loop has raised, later referrals do not change the outcome |
| Assist.SelfPayQuotes | backend/app.py:98-103 | the quote loop returns `QuotesOf` |
| Assist.InsuranceTriState | backend/app.py:94-107 | `accepted` is true exactly for a matching plan, false (with the quotes) exactly for a plan that matches none, `null` exactly without a plan; the answer has no provider key |
| Assist.InsuranceAnswerFor | backend/app.py:94-107 | the insurance branch returns `InsuranceAnswer` |
| Assist.AssistLayout | backend/app.py:56-107 | in every response the answers are provider answers for directory providers followed by exactly one insurance answer, the only one with an `insurance` key (stated for the corrected `AssistOf`, which `AssistFails` shows equal to every response the source gives) |
| Assist.ProvidersThenInsurance | backend/app.py:89-107 | provider answers followed by one answer with an `insurance` key: only the last has the key, and every earlier one is the answer for a directory provider |
| Assist.CorrectedAssistFails | backend/app.py:94-107 | with the `[{}]` default applied as intended, the endpoint raises exactly when a present plan matches no accepted plan, the self-pay table is non-empty and a referral lacks a specialty |
| Assist.AssistFails | backend/app.py:57-107 | the endpoint as written raises exactly when some referral has a candidate without departments (then with `NoDepartment`, since the provider loop runs first) or quoting raises as above; when it answers, the response equals the corrected `AssistOf` |
| Assist.AssistBody | backend/app.py:48-107 | the endpoint body returns `AssistOfAsWritten` |
| Client.LatestPayloadIsLatest | frontend/src/App.tsx:136 | no payload exactly when no assistant turn has one; otherwise it is that of a turn after which none has one |
| Client.LatestPayloadAfterTurn | frontend/src/App.tsx:136 | a turn without a payload keeps the latest payload; an assistant turn with one replaces it |
| Client.FirstInsuranceIsFirst | frontend/src/App.tsx:139 | the insurance answer is the first answer with an `insurance` key (`null` included), and there is none exactly when no answer has the key |
| Client.ProjectionFacts | frontend/src/App.tsx:135-141 | the cards are the answers with a truthy provider, in order; a conversation without a payload shows no cards and no insurance answer |
| Client.ProjectionAfterTurn | frontend/src/App.tsx:135-141 | a turn without a payload leaves the panel unchanged; a response replaces it with its own projection |
| Client.InitialProjection | frontend/src/App.tsx:131-141 | the page opens with no cards and no insurance answer |
| Client.FilteredSelection | frontend/src/App.tsx:146-152 | the filter keeps card order and keeps a card exactly when it passes the text and the type predicates |
| Client.FilterIdentity | frontend/src/App.tsx:146-152 | empty text with `ALL` shows every card |
| Client.NameHitIsShown | frontend/src/App.tsx:148 | a card whose provider name contains the text, ignoring case, passes the text predicate |
| Client.TypeFilterOnProviderAnswer | frontend/src/App.tsx:149 | on a backend card, `ESTABLISHED` keeps exactly established patients' providers and `NEW` exactly the others |
| Client.BadgeAgrees | frontend/src/App.tsx:182-185 | the label is "Insurance unknown" exactly when the tone is neutral; success and danger name the plan as accepted or not accepted |
| Client.PanelOfLayout | frontend/src/App.tsx:135-141 | provider answers followed by one insurance answer show that insurance answer and the named provider answers |
| Client.PanelAfterResponse | frontend/src/App.tsx:182-185 | after an `/assist` response the badge is success exactly for an accepted plan, danger exactly for a present plan not accepted, neutral exactly without a plan |
| Client.SlotIsoOfMoment | frontend/src/App.tsx:116-124 | a backend slot `YYYY-MM-DD HH:MM` becomes `YYYY-MM-DDTHH:MM:00` of the same minute |
| Client.SlotOfProviderAnswer | frontend/src/App.tsx:116-124 | every backend card shows the ISO local time of the slot `next_open_slot` found |
| Client.ErrorText | frontend/src/App.tsx:175 | the error text is never empty and is the failure's message when it has one |
| Client.Session.constructor | frontend/src/App.tsx:128-132 | empty message, not busy, no error, the greeting turn alone, and an empty panel |
| Client.Session.Edit | frontend/src/App.tsx:237 | editing sets the message and nothing else |
| Client.Session.Begin | frontend/src/App.tsx:157-161 | a blank message changes nothing; otherwise the error clears, busy is set and the trimmed text is appended as a nurse turn |
| Client.Session.Settle | frontend/src/App.tsx:162-178 | busy clears; a response is appended as an assistant turn and the message cleared; a failure sets the error and keeps the message |
| Client.Session.Ask | frontend/src/App.tsx:157-179 | after a response the conversation gains the nurse and assistant turns and the panel shows the response; after a failure it gains the nurse turn, the error is set and the panel is unchanged |

## Left out

- Reading the data file, `splitlines` and UTF-8 decoding: the loader takes the lines as input. Only ASCII case folding is modelled, and whitespace is the six ASCII characters both Python's `strip()` and JavaScript's `trim()` remove; Python's `strip()` also removes the separators `\x1c`-`\x1f` and non-ASCII spaces, which the model keeps.
- `float` beyond plain decimal text (exponents, `inf`, `nan`, underscores) is not modelled. Prices are exact reals, not binary floating point.
- Seconds and microseconds of `datetime.now()`: time is whole minutes. `datetime` overflow past year 9999 is not modelled, so a slot past the range still formats.
- `provider_is_open_on` and `next_open_slot` are modelled only with `department_idx = 0`, the only value used. `Search.NextOpenSlot` drops the `appt_minutes` argument, which the source never reads.
- Assist.AnswerFor: computes `appointment_minutes` as the source does, but the value is unused there, so no contract mentions it.
- The language model call, the prompt text, the HTTP layer, Flask routing and the patient lookup are left out. The endpoint takes the hospital, the patient record, "now" and the model's wording as inputs. The `intents` and `actions` constants of the response are not modelled.
- Client.FormatSlot: `toLocaleString` is the browser's localisation, so the model stops at the ISO string it is given. An unparsable string renders as "Invalid Date" without throwing, so nothing is claimed about the `catch`.
- Client.Session.Ask: the request is an input outcome (a response body or a failure message). Network timing, `console.error`, and interleaving of two requests (`busy` does not prevent one) are not modelled.
- `tryPrompt` is left out: the `setTimeout` callback calls the `ask` of the render that scheduled it, a stale closure that depends on React's scheduling.
- Rendering (cards, icons, colours, scrolling) and the `patientId` field are left out. The filter type is a parameter, since its selector never changes it.
- Client.BadgeLabel: the badge text is modelled after its icon, without the leading space React renders.

## Findings

| source | as written | input that shows it | evidently intended | confidence | as-written member | corrected member |
|---|---|---|---|---|---|---|
| backend/app.py:83-86 | `p.get("departments",[{}])[0]` indexes the provider's department list, which the loader always creates, so the `[{}]` default never applies | a provider line `- Grey, Meredith` with no department block under it gives `departments == []`, and `[][0]` raises `IndexError`, failing the whole request | a provider without departments answers with `null` department, address, phone and hours | not executed | Assist.ProviderAnswerAsWritten | Assist.ProviderAnswer |
