// The booking wizard's client-side state: which step is shown, the service,
// date and time picked so far and the patient's contact details.  Each action
// replaces the named fields of the state record and keeps the others; a date
// is the instant (in ms) the date picker produced.
module BookingStore {
  import opened Wrappers

  datatype WizardStep = SERVICE | DATE | DETAILS | CONFIRMATION

  datatype PatientDetails = PatientDetails(name: string, email: string, phone: string)

  /** A partial set of patient details: an absent field is not supplied. */
  datatype DetailsPatch = DetailsPatch(name: Option<string>, email: Option<string>, phone: Option<string>)

  datatype WizardState = WizardState(step: WizardStep, serviceId: Option<string>, selectedDate: Option<int>,
                                     selectedTime: Option<string>, patientDetails: PatientDetails)

  const EMPTY_DETAILS := PatientDetails("", "", "")

  /** The state the wizard opens with and returns to on reset. */
  const INITIAL := WizardState(SERVICE, None, None, None, EMPTY_DETAILS)

  datatype Action =
    | SetStep(to: WizardStep)
    | SelectService(serviceId: string)
    | SelectDate(date: Option<int>)
    | SelectTime(time: Option<string>)
    | SetPatientDetails(patch: DetailsPatch)
    | Reset

  /** Spreading a patch over the details: supplied fields win, the rest are kept. */
  function Patch(d: PatientDetails, p: DetailsPatch): (r: PatientDetails)
    ensures r.name == p.name.GetOr(d.name)
    ensures r.email == p.email.GetOr(d.email)
    ensures r.phone == p.phone.GetOr(d.phone)
  {
    PatientDetails(p.name.GetOr(d.name), p.email.GetOr(d.email), p.phone.GetOr(d.phone))
  }

  /** The patch that supplies what `q` supplies and otherwise what `p` does. */
  function Then(p: DetailsPatch, q: DetailsPatch): DetailsPatch
  {
    DetailsPatch(if q.name.Some? then q.name else p.name,
                 if q.email.Some? then q.email else p.email,
                 if q.phone.Some? then q.phone else p.phone)
  }

  /** Two patches in a row are one patch, and repeating a patch changes nothing more. */
  lemma PatchComposes(d: PatientDetails, p: DetailsPatch, q: DetailsPatch)
    ensures Patch(Patch(d, p), q) == Patch(d, Then(p, q))
    ensures Patch(Patch(d, p), p) == Patch(d, p)
  {
  }

  /** The record an action leaves behind. */
  function Transition(s: WizardState, a: Action): (r: WizardState)
    ensures a.SetStep? ==> r == s.(step := a.to)
    ensures a.SelectService? ==> r == s.(serviceId := Some(a.serviceId), step := DATE)
    ensures a.SelectDate? ==> r == s.(selectedDate := a.date, selectedTime := None)
    ensures a.SelectTime? ==> r == s.(selectedTime := a.time)
    ensures a.SetPatientDetails? ==> r == s.(patientDetails := Patch(s.patientDetails, a.patch))
    ensures a.Reset? ==> r == INITIAL
  {
    match a
    case SetStep(to) => s.(step := to)
    case SelectService(id) => s.(serviceId := Some(id), step := DATE)
    case SelectDate(date) => s.(selectedDate := date, selectedTime := None)
    case SelectTime(time) => s.(selectedTime := time)
    case SetPatientDetails(p) => s.(patientDetails := Patch(s.patientDetails, p))
    case Reset => INITIAL
  }

  /** The state after a run of actions from `s`. */
  function Run(s: WizardState, actions: seq<Action>): WizardState
    decreases |actions|
  {
    if actions == [] then s else Run(Transition(s, actions[0]), actions[1..])
  }

  /** Whatever happened before, a reset (and anything after it) no longer depends on it. */
  lemma {:induction false} ResetForgets(s: WizardState, t: WizardState, before: seq<Action>, after: seq<Action>)
    ensures Run(s, before + [Reset] + after) == Run(t, [Reset] + after) == Run(INITIAL, after)
    decreases |before|
  {
    if before == [] {
      assert [] + [Reset] + after == [Reset] + after;
      assert ([Reset] + after)[1..] == after;
    } else {
      assert (before + [Reset] + after)[1..] == before[1..] + [Reset] + after;
      assert ([Reset] + after)[1..] == after;
      ResetForgets(Transition(s, before[0]), t, before[1..], after);
    }
  }

  /** Picking a new date always asks for the time again, and a later time pick keeps that date. */
  lemma DateThenTime(s: WizardState, date: Option<int>, time: Option<string>)
    ensures Transition(s, SelectDate(date)).selectedTime == None
    ensures Run(s, [SelectDate(date), SelectTime(time)]) == s.(selectedDate := date, selectedTime := time)
  {
    var s1 := Transition(s, SelectDate(date));
    assert [SelectDate(date), SelectTime(time)][1..] == [SelectTime(time)];
    assert [SelectTime(time)][1..] == [];
    assert Run(s1, [SelectTime(time)]) == Run(Transition(s1, SelectTime(time)), []);
  }

  class Store {
    var step: WizardStep
    var serviceId: Option<string>
    var selectedDate: Option<int>
    var selectedTime: Option<string>
    var patientDetails: PatientDetails

    function State(): WizardState
      reads this
    {
      WizardState(step, serviceId, selectedDate, selectedTime, patientDetails)
    }

    constructor()
      ensures State() == INITIAL
    {
      step, serviceId, selectedDate, selectedTime := SERVICE, None, None, None;
      patientDetails := EMPTY_DETAILS;
    }

    method SetStep(to: WizardStep)
      modifies this
      ensures State() == Transition(old(State()), Action.SetStep(to))
    {
      step := to;
    }

    method SelectService(id: string)
      modifies this
      ensures State() == Transition(old(State()), Action.SelectService(id))
    {
      serviceId, step := Some(id), DATE;
    }

    method SelectDate(date: Option<int>)
      modifies this
      ensures State() == Transition(old(State()), Action.SelectDate(date))
    {
      selectedDate, selectedTime := date, None;
    }

    method SelectTime(time: Option<string>)
      modifies this
      ensures State() == Transition(old(State()), Action.SelectTime(time))
    {
      selectedTime := time;
    }

    method SetPatientDetails(p: DetailsPatch)
      modifies this
      ensures State() == Transition(old(State()), Action.SetPatientDetails(p))
    {
      patientDetails := Patch(patientDetails, p);
    }

    method Reset()
      modifies this
      ensures State() == Transition(old(State()), Action.Reset)
    {
      step, serviceId, selectedDate, selectedTime := SERVICE, None, None, None;
      patientDetails := EMPTY_DETAILS;
    }
  }
}
