/**
 * The personal-information step of the wizard: a form over the personal
 * record, per-field "is required" errors, and the save that merges the form
 * into the document.
 */
module PersonalInfoStep {
  import opened Wrappers
  import opened JsStrings
  import opened ResumeContext

  /** The required keys with their labels, in the order they are checked. */
  const RequiredFields: seq<(PersonalField, string)> := [
    (FirstName, "First Name"), (LastName, "Last Name"), (RoleApplyingFor, "Role Applying For"),
    (Email, "Email"), (City, "City"), (Summary, "About Me")
  ]

  predicate IsRequired(f: PersonalField) {
    f == FirstName || f == LastName || f == RoleApplyingFor || f == Email || f == City || f == Summary
  }

  /** The label shown for a key in its error message. */
  function Label(f: PersonalField): string {
    match f
    case FirstName => "First Name"
    case LastName => "Last Name"
    case RoleApplyingFor => "Role Applying For"
    case Email => "Email"
    case City => "City"
    case Summary => "About Me"
    case Phone => "Phone"
    case Address => "Address"
    case State => "State"
    case ZipCode => "Zip Code"
    case Website => "Website"
  }

  /** The position of a key in the required list; 6 for a key that is not required. */
  function RequiredIndex(f: PersonalField): nat {
    match f
    case FirstName => 0
    case LastName => 1
    case RoleApplyingFor => 2
    case Email => 3
    case City => 4
    case Summary => 5
    case _ => 6
  }

  /** The required list holds each required key exactly once, at its position, with its label. */
  lemma RequiredFieldsIndexed()
    ensures forall j :: 0 <= j < |RequiredFields| ==>
      RequiredIndex(RequiredFields[j].0) == j && RequiredFields[j].1 == Label(RequiredFields[j].0)
    ensures forall f :: IsRequired(f) <==> RequiredIndex(f) < |RequiredFields|
  {
  }

  /** The error shown under a required field left blank. */
  function RequiredMessage(caption: string): string {
    caption + " is required"
  }

  /**
   * Whether the value of the `j`-th required key is made of whitespace only
   * (the empty value included), which is what `trim() === ''` tests.
   */
  predicate MissingAt(data: PersonalInfo, j: nat)
    requires j < |RequiredFields|
  {
    AllSpace(Get(data, RequiredFields[j].0))
  }

  /** The errors after checking the first `i` required keys, one error per blank key. */
  function ErrorsUpTo(data: PersonalInfo, i: nat): map<PersonalField, string>
    requires i <= |RequiredFields|
  {
    if i == 0 then map[]
    else
      var errors := ErrorsUpTo(data, i - 1);
      if MissingAt(data, i - 1) then errors[RequiredFields[i - 1].0 := RequiredMessage(RequiredFields[i - 1].1)]
      else errors
  }

  /**
   * After `i` keys, a key has an error exactly when it is among the first `i`
   * and blank, and its error names its label.
   */
  lemma {:induction false} ErrorsUpToSpec(data: PersonalInfo, i: nat)
    requires i <= |RequiredFields|
    ensures forall j :: 0 <= j < i ==> (RequiredFields[j].0 in ErrorsUpTo(data, i) <==> MissingAt(data, j))
    ensures forall f :: f in ErrorsUpTo(data, i) ==> RequiredIndex(f) < i && ErrorsUpTo(data, i)[f] == RequiredMessage(Label(f))
  {
    RequiredFieldsIndexed();
    if i > 0 {
      ErrorsUpToSpec(data, i - 1);
    }
  }

  /** The test `validateForm` makes of one value: empty, or nothing but whitespace once trimmed. */
  method IsMissingValue(value: string) returns (blank: bool)
    ensures blank <==> AllSpace(value)
  {
    BlankIffAllSpace(value);
    blank := value == "" || Trim(value) == "";
  }

  /**
   * Once every required key is checked, the errors are those of the blank
   * required keys, each naming its label, and there are none exactly when
   * no required key is blank.
   */
  lemma AllErrorsSpec(data: PersonalInfo)
    ensures var errors := ErrorsUpTo(data, |RequiredFields|);
      && (forall j :: 0 <= j < |RequiredFields| ==> (RequiredFields[j].0 in errors <==> MissingAt(data, j)))
      && (forall f :: f in errors ==> IsRequired(f) && errors[f] == RequiredMessage(Label(f)))
      && (errors == map[] <==> forall j :: 0 <= j < |RequiredFields| ==> !MissingAt(data, j))
  {
    var errors := ErrorsUpTo(data, |RequiredFields|);
    ErrorsUpToSpec(data, |RequiredFields|);
    RequiredFieldsIndexed();
    if errors != map[] {
      var f :| f in errors;
      assert RequiredFields[RequiredIndex(f)].0 == f;
    }
  }

  /**
   * `validateForm`'s loop: an error for each required key whose value is
   * empty or only whitespace, reading "<label> is required", and no other
   * error; the form is valid exactly when no error was recorded.
   */
  method CollectFieldErrors(data: PersonalInfo) returns (errors: map<PersonalField, string>, isValid: bool)
    ensures forall j :: 0 <= j < |RequiredFields| ==> (RequiredFields[j].0 in errors <==> MissingAt(data, j))
    ensures forall f :: f in errors ==> IsRequired(f) && errors[f] == RequiredMessage(Label(f))
    ensures isValid <==> errors == map[]
    ensures isValid <==> forall j :: 0 <= j < |RequiredFields| ==> !MissingAt(data, j)
  {
    errors := map[];
    isValid := true;
    var i := 0;
    while i < |RequiredFields|
      invariant 0 <= i <= |RequiredFields|
      invariant errors == ErrorsUpTo(data, i)
      invariant isValid <==> errors == map[]
    {
      var key, caption := RequiredFields[i].0, RequiredFields[i].1;
      var value := Get(data, key);
      assert ErrorsUpTo(data, i + 1) ==
        if MissingAt(data, i) then errors[key := RequiredMessage(caption)] else errors;
      var blank := IsMissingValue(value);
      if blank {
        errors := errors[key := RequiredMessage(caption)];
        isValid := false;
        assert key in errors;
      }
      i := i + 1;
    }
    AllErrorsSpec(data);
  }

  class PersonalInfoStep {
    var formData: PersonalInfo
    var fieldErrors: map<PersonalField, string>
    const store: ResumeProvider

    /** Mounting: the form starts from the document's personal record, with no errors. */
    constructor (store: ResumeProvider)
      ensures this.store == store && formData == store.state.personalInfo && fieldErrors == map[]
    {
      this.store := store;
      formData := store.state.personalInfo;
      fieldErrors := map[];
    }

    /** `handleInputChange`: set one field; a shown error on that field is blanked. */
    method InputChange(f: PersonalField, v: string)
      modifies this
      ensures formData == With(old(formData), f, v)
      ensures fieldErrors == if f in old(fieldErrors) && old(fieldErrors)[f] != ""
                             then old(fieldErrors)[f := ""] else old(fieldErrors)
    {
      formData := With(formData, f, v);
      if f in fieldErrors && fieldErrors[f] != "" {
        fieldErrors := fieldErrors[f := ""];
      }
    }

    /** `validateForm`: the collected errors replace the shown ones. */
    method ValidateForm() returns (isValid: bool)
      modifies this
      ensures forall j :: 0 <= j < |RequiredFields| ==> (RequiredFields[j].0 in fieldErrors <==> MissingAt(formData, j))
      ensures forall f :: f in fieldErrors ==> IsRequired(f) && fieldErrors[f] == RequiredMessage(Label(f))
      ensures isValid <==> forall j :: 0 <= j < |RequiredFields| ==> !MissingAt(formData, j)
      ensures formData == old(formData)
    {
      var errors;
      errors, isValid := CollectFieldErrors(formData);
      fieldErrors := errors;
    }

    /**
     * `handleSave`: when every required field is filled in, the whole form
     * replaces the document's personal record and the errors are cleared;
     * otherwise only the errors change.
     */
    method Save() returns (saved: bool)
      modifies this, store
      ensures saved <==> forall j :: 0 <= j < |RequiredFields| ==> !MissingAt(old(formData), j)
      ensures saved ==>
        && store.state == Reduce(old(store.state), UpdatePersonalInfo(FullPatch(old(formData))))
        && store.state.personalInfo == old(formData)
        && fieldErrors == map[]
      ensures !saved ==>
        && store.state == old(store.state)
        && (forall j :: 0 <= j < |RequiredFields| ==> (RequiredFields[j].0 in fieldErrors <==> MissingAt(formData, j)))
        && (forall f :: f in fieldErrors ==> IsRequired(f) && fieldErrors[f] == RequiredMessage(Label(f)))
      ensures store.idCounter == old(store.idCounter) && formData == old(formData)
    {
      saved := ValidateForm();
      if saved {
        MergeFullPatch(store.state.personalInfo, formData);
        store.UpdatePersonalInfo(FullPatch(formData));
        fieldErrors := map[];
      }
    }
  }
}
