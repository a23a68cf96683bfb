/** The JSON that `/assist` returns and the page reads. An answer is one JSON
    object; every key may be missing, `null` or set, and the page tells provider
    answers from the insurance answer only by which keys are set. */
module Payload {
  import opened Wrappers

  /** One key of a JSON object: missing (`undefined` in the page), `null`, or set. */
  datatype Field<+T> = Absent | Null | Present(value: T)

  /** A key filled from a dictionary lookup: `None` is serialised as `null`. */
  function FromOption<T>(o: Option<T>): (f: Field<T>)
    ensures f.Absent? == false
    ensures f.Present? <==> o.Some?
    ensures o.Some? ==> f.value == o.value
  {
    match o
    case Some(v) => Present(v)
    case None => Null
  }

  /** `{"specialty": ..., "self_pay": ...}`. */
  datatype Quote = Quote(specialty: string, selfPay: real)

  /** One element of `answers`. */
  datatype Answer = Answer(
    provider: Field<string>,
    certification: Field<string>,
    specialty: Field<string>,
    department: Field<string>,
    address: Field<string>,
    phone: Field<string>,
    hours: Field<string>,
    appointmentType: Field<string>,
    suggestedSlot: Field<string>,
    insurance: Field<string>,
    accepted: Field<bool>,
    selfPayQuotes: Field<seq<Quote>>,
    message: Field<string>)

  /** The empty JSON object. */
  const NoKeys: Answer := Answer(Absent, Absent, Absent, Absent, Absent, Absent, Absent, Absent, Absent,
    Absent, Absent, Absent, Absent)

  /** `result.patient`. */
  datatype PatientSummary = PatientSummary(name: Option<string>, dob: Option<string>, insurance: Option<string>)

  /** The response body: the model's wording and the structured result. */
  datatype AssistResult = AssistResult(wording: string, patient: PatientSummary, answers: seq<Answer>)
}
