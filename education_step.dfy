/**
 * The education step of the wizard: a form for one entry, a list of staged
 * entries, and the save that commits them to the store.
 */
module EducationStep {
  import opened Wrappers
  import opened JsStrings
  import opened DateField
  import opened ResumeContext
  import opened Staging

  const EmptyForm := EducationFields("", "", "", "", "", "", false, "", "")

  /** An entry staged by "add", under its local id. */
  type PendingEducation = Pending<EducationFields>

  /** One change of a form control, with its new value. */
  datatype Edit =
    | Institution(institution: string) | Degree(degree: string) | Field(field: string)
    | Location(location: string) | StartDate(startDate: string) | EndDate(endDate: string)
    | Current(current: bool) | Gpa(gpa: string) | Description(description: string)

  /** `{ ...form, [field]: value }`. */
  function ApplyEdit(f: EducationFields, e: Edit): EducationFields {
    match e
    case Institution(v) => f.(institution := v)
    case Degree(v) => f.(degree := v)
    case Field(v) => f.(field := v)
    case Location(v) => f.(location := v)
    case StartDate(v) => f.(startDate := v)
    case EndDate(v) => f.(endDate := v)
    case Current(b) => f.(current := b)
    case Gpa(v) => f.(gpa := v)
    case Description(v) => f.(description := v)
  }

  datatype DateSlot = StartSlot | EndSlot

  /** How "add" ends: the first failed check, or the entry staged. */
  datatype AddOutcome = MissingRequired | BadStartDate | BadEndDate | Staged

  /** The checks of "add", in the order they are made. */
  function CheckForm(f: EducationFields): AddOutcome {
    if f.institution == "" || f.degree == "" then MissingRequired
    else if f.startDate != "" && !EducationDateValid(f.startDate) then BadStartDate
    else if f.endDate != "" && !EducationDateValid(f.endDate) then BadEndDate
    else Staged
  }

  /**
   * An entry is staged exactly when institution and degree are filled in and
   * each date is empty or a month 01-12 of any four-digit year.
   */
  lemma CheckFormIff(f: EducationFields)
    ensures CheckForm(f) == Staged <==>
      && f.institution != "" && f.degree != ""
      && (f.startDate == "" || exists m: nat, y: nat :: 1 <= m <= 12 && y < 10000 && f.startDate == MonthYear(m, y))
      && (f.endDate == "" || exists m: nat, y: nat :: 1 <= m <= 12 && y < 10000 && f.endDate == MonthYear(m, y))
    ensures CheckForm(f) == MissingRequired <==> f.institution == "" || f.degree == ""
    ensures CheckForm(f) == BadStartDate ==> !EducationDateValid(f.startDate)
    ensures CheckForm(f) == BadEndDate ==> EducationDateValid(f.startDate) && !EducationDateValid(f.endDate)
  {
    EducationDateValidIff(f.startDate);
    EducationDateValidIff(f.endDate);
  }

  /** How "save" ends. */
  datatype SaveOutcome = NothingToSave | SavedAll

  class EducationStep {
    var form: EducationFields
    var pending: seq<PendingEducation>
    var startDateError: Option<string>
    var endDateError: Option<string>
    const store: ResumeProvider

    constructor (store: ResumeProvider)
      ensures this.store == store && form == EmptyForm && pending == []
      ensures startDateError == None && endDateError == None
    {
      this.store := store;
      form := EmptyForm;
      pending := [];
      startDateError := None;
      endDateError := None;
    }

    /** `handleInputChange`: set one field; editing a date field clears its error. */
    method InputChange(e: Edit)
      modifies this
      ensures form == ApplyEdit(old(form), e)
      ensures startDateError == if e.StartDate? then None else old(startDateError)
      ensures endDateError == if e.EndDate? then None else old(endDateError)
      ensures pending == old(pending)
    {
      form := ApplyEdit(form, e);
      if e.StartDate? {
        startDateError := None;
      } else if e.EndDate? {
        endDateError := None;
      }
    }

    /**
     * `handleDateChange`: the formatted text goes into the date field, and the
     * field's error is set exactly when that text is complete and fails the pattern.
     */
    method DateChange(slot: DateSlot, value: string)
      modifies this
      ensures var t := FormatDateInput(value);
        var e := DateError(t, MonthYearShape(t), EducationDateMessage);
        && (slot == StartSlot ==> form == old(form).(startDate := t) && startDateError == e
                                  && endDateError == old(endDateError))
        && (slot == EndSlot ==> form == old(form).(endDate := t) && endDateError == e
                                && startDateError == old(startDateError))
      ensures pending == old(pending)
    {
      var t := FormatDateInput(value);
      var e := DateError(t, MonthYearShape(t), EducationDateMessage);
      if slot == StartSlot {
        form := form.(startDate := t);
        startDateError := e;
      } else {
        form := form.(endDate := t);
        endDateError := e;
      }
    }

    /**
     * `handleAddEducation` at time `now` (milliseconds): on success the form
     * is staged under the id `now`, the form is emptied and the errors cleared;
     * a missing field changes nothing; a bad date sets that date's error only.
     */
    method AddEducation(now: nat) returns (o: AddOutcome)
      modifies this
      ensures o == CheckForm(old(form))
      ensures o == Staged ==>
        && pending == old(pending) + [Pending(NatToString(now), old(form))]
        && form == EmptyForm && startDateError == None && endDateError == None
      ensures o == MissingRequired ==>
        && pending == old(pending) && form == old(form)
        && startDateError == old(startDateError) && endDateError == old(endDateError)
      ensures o == BadStartDate ==>
        && pending == old(pending) && form == old(form)
        && startDateError == Some(EducationDateMessage) && endDateError == old(endDateError)
      ensures o == BadEndDate ==>
        && pending == old(pending) && form == old(form)
        && startDateError == old(startDateError) && endDateError == Some(EducationDateMessage)
    {
      o := CheckForm(form);
      match o
      case MissingRequired =>
      case BadStartDate =>
        startDateError := Some(EducationDateMessage);
      case BadEndDate =>
        endDateError := Some(EducationDateMessage);
      case Staged =>
        pending := pending + [Pending(NatToString(now), form)];
        form := EmptyForm;
        startDateError := None;
        endDateError := None;
    }

    /** `handleDeletePendingEducation`: drop the staged entries with that id. */
    method DeletePending(id: string)
      modifies this
      ensures pending == RemoveId(old(pending), PendingId, id)
      ensures forall p :: p in pending <==> p in old(pending) && p.id != id
      ensures form == old(form)
      ensures startDateError == old(startDateError) && endDateError == old(endDateError)
    {
      var kept := RemoveId(pending, PendingId, id);
      RemoveIdMembers(pending, PendingId, id);
      forall p: PendingEducation ensures p in kept <==> p in pending && p.id != id {
        assert PendingId(p) == p.id;
      }
      pending := kept;
    }

    /**
     * `handleSave`: with nothing staged and nothing saved the step refuses;
     * otherwise every staged entry goes to the store in order, all under the
     * same counter value, and the staging list is emptied.
     */
    method Save() returns (o: SaveOutcome)
      modifies this, store
      ensures o == NothingToSave <==> old(pending) == [] && old(store.state.education) == []
      ensures o == NothingToSave ==>
        && store.state == old(store.state) && store.idCounter == old(store.idCounter)
        && pending == old(pending)
      ensures o == SavedAll ==>
        && store.state == old(store.state).(education := old(store.state.education)
             + StaleBatch(PendingFields(old(pending)), EducationWithId, old(store.idCounter)))
        && store.idCounter == old(store.idCounter) + |old(pending)|
        && pending == []
      ensures form == old(form)
      ensures startDateError == old(startDateError) && endDateError == old(endDateError)
    {
      if |pending| == 0 && |store.state.education| == 0 {
        return NothingToSave;
      }
      store.AddEducations(PendingFields(pending));
      pending := [];
      o := SavedAll;
    }
  }
}
