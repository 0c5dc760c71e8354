/**
 * The work-experience step of the wizard: a form for one entry, a list of
 * staged entries, the "fresher" switch, and the save that commits the
 * staged entries to the store.
 */
module ExperienceStep {
  import opened Wrappers
  import opened JsStrings
  import opened DateField
  import opened ResumeContext
  import opened Staging

  const EmptyForm := ExperienceFields("", "", "", "", "", false, "")

  /** An entry staged by "add", under its local id. */
  type PendingExperience = Pending<ExperienceFields>

  /** One change of a form control, with its new value. */
  datatype Edit =
    | Company(company: string) | Position(position: string) | Location(location: string)
    | StartDate(startDate: string) | EndDate(endDate: string) | Current(current: bool)
    | Description(description: string)

  /** `{ ...form, [field]: value }`. */
  function ApplyEdit(f: ExperienceFields, e: Edit): ExperienceFields {
    match e
    case Company(v) => f.(company := v)
    case Position(v) => f.(position := v)
    case Location(v) => f.(location := v)
    case StartDate(v) => f.(startDate := v)
    case EndDate(v) => f.(endDate := v)
    case Current(b) => f.(current := b)
    case Description(v) => f.(description := v)
  }

  datatype DateSlot = StartSlot | EndSlot

  /** How "add" ends: the first failed check, or the entry staged. */
  datatype AddOutcome = MissingRequired | BadStartDate | BadEndDate | Staged

  /** The checks of "add", in the order they are made. */
  function CheckForm(f: ExperienceFields): AddOutcome {
    if f.company == "" || f.position == "" then MissingRequired
    else if f.startDate != "" && !ExperienceDateValid(f.startDate) then BadStartDate
    else if f.endDate != "" && !ExperienceDateValid(f.endDate) then BadEndDate
    else Staged
  }

  /**
   * An entry is staged exactly when company and position are filled in and
   * each date is empty or a month 01-12 of a year 1900-2100; otherwise the
   * first failing check names the reason.
   */
  lemma CheckFormIff(f: ExperienceFields)
    ensures CheckForm(f) == Staged <==>
      && f.company != "" && f.position != ""
      && (f.startDate == "" || exists m: nat, y: nat :: 1 <= m <= 12 && 1900 <= y <= 2100 && f.startDate == MonthYear(m, y))
      && (f.endDate == "" || exists m: nat, y: nat :: 1 <= m <= 12 && 1900 <= y <= 2100 && f.endDate == MonthYear(m, y))
    ensures CheckForm(f) == MissingRequired <==> f.company == "" || f.position == ""
    ensures CheckForm(f) == BadStartDate ==> !ExperienceDateValid(f.startDate)
    ensures CheckForm(f) == BadEndDate ==> ExperienceDateValid(f.startDate) && !ExperienceDateValid(f.endDate)
  {
    ExperienceDateValidIff(f.startDate);
    ExperienceDateValidIff(f.endDate);
  }

  /** How "save" ends. */
  datatype SaveOutcome = FresherSaved | NothingToSave | SavedAll

  class ExperienceStep {
    var form: ExperienceFields
    var isFresher: bool
    var pending: seq<PendingExperience>
    var startDateError: Option<string>
    var endDateError: Option<string>
    const store: ResumeProvider

    /** Mounting: an empty form, nothing staged, the fresher flag copied from the document. */
    constructor (store: ResumeProvider)
      ensures this.store == store && form == EmptyForm && isFresher == store.state.isFresher
      ensures pending == [] && startDateError == None && endDateError == None
    {
      this.store := store;
      form := EmptyForm;
      isFresher := store.state.isFresher;
      pending := [];
      startDateError := None;
      endDateError := None;
    }

    /** `handleInputChange`: set one field; editing a date field clears its error. */
    method InputChange(e: Edit)
      modifies this
      ensures form == ApplyEdit(old(form), e)
      ensures startDateError == if e.StartDate? then None else old(startDateError)
      ensures endDateError == if e.EndDate? then None else old(endDateError)
      ensures isFresher == old(isFresher) && pending == old(pending)
    {
      form := ApplyEdit(form, e);
      if e.StartDate? {
        startDateError := None;
      } else if e.EndDate? {
        endDateError := None;
      }
    }

    /**
     * `handleDateChange`: the formatted text goes into the date field, and the
     * field's error is set exactly when that text is complete and rejected.
     */
    method DateChange(slot: DateSlot, value: string)
      modifies this
      ensures var t := FormatDateInput(value);
        var e := DateError(t, ExperienceDateValid(t), ExperienceDateMessage);
        && (slot == StartSlot ==> form == old(form).(startDate := t) && startDateError == e
                                  && endDateError == old(endDateError))
        && (slot == EndSlot ==> form == old(form).(endDate := t) && endDateError == e
                                && startDateError == old(startDateError))
      ensures isFresher == old(isFresher) && pending == old(pending)
    {
      var t := FormatDateInput(value);
      var e := DateError(t, ExperienceDateValid(t), ExperienceDateMessage);
      if slot == StartSlot {
        form := form.(startDate := t);
        startDateError := e;
      } else {
        form := form.(endDate := t);
        endDateError := e;
      }
    }

    /**
     * `handleFresherChange`: the flag is set here and in the document; turning
     * it on also drops the staged entries and empties the form.
     */
    method FresherChange(checked: bool)
      modifies this, store
      ensures isFresher == checked
      ensures store.state == old(store.state).(isFresher := checked) && store.idCounter == old(store.idCounter)
      ensures checked ==> pending == [] && form == EmptyForm
      ensures !checked ==> pending == old(pending) && form == old(form)
      ensures startDateError == old(startDateError) && endDateError == old(endDateError)
    {
      isFresher := checked;
      store.SetFresher(checked);
      if checked {
        pending := [];
        form := EmptyForm;
      }
    }

    /**
     * `handleAddExperience` at time `now` (milliseconds): on success the form
     * is staged under the id `now`, the form is emptied and the errors cleared;
     * a missing field changes nothing; a bad date sets that date's error only.
     */
    method AddExperience(now: nat) returns (o: AddOutcome)
      modifies this
      ensures o == CheckForm(old(form))
      ensures o == Staged ==>
        && pending == old(pending) + [Pending(NatToString(now), old(form))]
        && form == EmptyForm && startDateError == None && endDateError == None
      ensures o == MissingRequired ==>
        && pending == old(pending) && form == old(form)
        && startDateError == old(startDateError) && endDateError == old(endDateError)
      ensures o == BadStartDate ==>
        && pending == old(pending) && form == old(form)
        && startDateError == Some(ExperienceDateMessage) && endDateError == old(endDateError)
      ensures o == BadEndDate ==>
        && pending == old(pending) && form == old(form)
        && startDateError == old(startDateError) && endDateError == Some(ExperienceDateMessage)
      ensures isFresher == old(isFresher)
    {
      o := CheckForm(form);
      match o
      case MissingRequired =>
      case BadStartDate =>
        startDateError := Some(ExperienceDateMessage);
      case BadEndDate =>
        endDateError := Some(ExperienceDateMessage);
      case Staged =>
        pending := pending + [Pending(NatToString(now), form)];
        form := EmptyForm;
        startDateError := None;
        endDateError := None;
    }

    /** `handleDeletePendingExperience`: drop the staged entries with that id. */
    method DeletePending(id: string)
      modifies this
      ensures pending == RemoveId(old(pending), PendingId, id)
      ensures forall p :: p in pending <==> p in old(pending) && p.id != id
      ensures form == old(form) && isFresher == old(isFresher)
      ensures startDateError == old(startDateError) && endDateError == old(endDateError)
    {
      var kept := RemoveId(pending, PendingId, id);
      RemoveIdMembers(pending, PendingId, id);
      forall p: PendingExperience ensures p in kept <==> p in pending && p.id != id {
        assert PendingId(p) == p.id;
      }
      pending := kept;
    }

    /**
     * `handleSave`: a fresher saves nothing; with nothing staged and nothing
     * saved the step refuses; otherwise every staged entry goes to the store
     * in order (all in one handler, so all under the same counter value) and
     * the staging list is emptied.
     */
    method Save() returns (o: SaveOutcome)
      modifies this, store
      ensures old(isFresher) ==> o == FresherSaved
      ensures !old(isFresher) && old(pending) == [] && old(store.state.experience) == [] ==> o == NothingToSave
      ensures o != SavedAll ==>
        && store.state == old(store.state) && store.idCounter == old(store.idCounter)
        && pending == old(pending)
      ensures o == SavedAll ==>
        && store.state == old(store.state).(experience := old(store.state.experience)
             + StaleBatch(PendingFields(old(pending)), ExperienceWithId, old(store.idCounter)))
        && store.idCounter == old(store.idCounter) + |old(pending)|
        && pending == []
      ensures o == SavedAll <==> !old(isFresher) && (old(pending) != [] || old(store.state.experience) != [])
      ensures form == old(form) && isFresher == old(isFresher)
      ensures startDateError == old(startDateError) && endDateError == old(endDateError)
    {
      if isFresher {
        return FresherSaved;
      }
      if |pending| == 0 && |store.state.experience| == 0 {
        return NothingToSave;
      }
      store.AddExperiences(PendingFields(pending));
      pending := [];
      o := SavedAll;
    }
  }
}
