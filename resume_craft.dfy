/**
 * The wizard shell: which section is active, which template is chosen, the
 * step counter shown above the form, back and forward navigation between the
 * sections, and the percentage of the document that is complete.
 */
module ResumeCraft {
  import opened Wrappers
  import opened JsStrings
  import opened Routes
  import opened ResumeContext
  import opened PersonalInfoStep

  /** The registry's only template, which is also the default. */
  const DefaultTemplate := "template-3"

  /**
   * The names an object literal answers `true` to under the `in` operator
   * besides its own keys: those inherited from `Object.prototype`.
   */
  const ObjectPrototypeNames: set<string> := {
    "constructor", "hasOwnProperty", "isPrototypeOf", "propertyIsEnumerable",
    "toLocaleString", "toString", "valueOf", "__proto__",
    "__defineGetter__", "__defineSetter__", "__lookupGetter__", "__lookupSetter__"
  }

  /** `key in resumeTemplates` as written: own keys and inherited names alike. */
  predicate InRegistryAsWritten(key: string) {
    key == DefaultTemplate || key in ObjectPrototypeNames
  }

  /** The membership the registry's type promises: only the registered template keys. */
  predicate IsTemplateKey(key: string) {
    key == DefaultTemplate
  }

  /** The inherited name "toString" passes the check as written although it names no template. */
  lemma InRegistryAcceptsInherited()
    ensures InRegistryAsWritten("toString") && !IsTemplateKey("toString")
  {
  }

  /** The corrected check accepts exactly the registered keys, all of which the written check also accepts. */
  lemma TemplateKeyIff(key: string)
    ensures IsTemplateKey(key) <==> key == DefaultTemplate
    ensures IsTemplateKey(key) ==> InRegistryAsWritten(key)
  {
  }

  /**
   * `templateFromUrl || initialTemplate`: one of the two, the address's value
   * whenever it is truthy, and falsy only when both are.
   */
  function TemplateToUse(fromUrl: Option<string>, initial: Option<string>): (r: Option<string>)
    ensures r == fromUrl || r == initial
    ensures Truthy(fromUrl) ==> r == fromUrl
    ensures Truthy(r) <==> Truthy(fromUrl) || Truthy(initial)
  {
    if Truthy(fromUrl) then fromUrl else initial
  }

  /** The sections that show a form, in wizard order. */
  const FormSections := [PersonalInfoSection, ExperienceSection, EducationSection, SkillsSection]

  /** The sections that have a section before them. */
  const LaterSections := [ExperienceSection, EducationSection, SkillsSection, PreviewSection]

  /** The step number shown for a section; an unknown section counts as step 1. */
  function StepOf(section: string): (n: nat)
    ensures 1 <= n <= 5
    ensures forall k :: 0 <= k < |Sections| && section == Sections[k] ==> n == k + 1
  {
    if section == PersonalInfoSection then 1
    else if section == ExperienceSection then 2
    else if section == EducationSection then 3
    else if section == SkillsSection then 4
    else if section == PreviewSection then 5
    else 1
  }

  /** The caption of a step; empty outside 1 to 5. */
  function StepLabel(step: int): (caption: string)
    ensures caption != "" <==> 1 <= step <= 5
  {
    if step == 1 then "Personal Info"
    else if step == 2 then "Experience"
    else if step == 3 then "Education"
    else if step == 4 then "Skills"
    else if step == 5 then "Preview"
    else ""
  }

  /** The section reached by going back from a section; the first section and unknown ones stay put. */
  function BackOf(section: string): (r: string)
    ensures section !in LaterSections ==> r == section
  {
    if section == ExperienceSection then PersonalInfoSection
    else if section == EducationSection then ExperienceSection
    else if section == SkillsSection then EducationSection
    else if section == PreviewSection then SkillsSection
    else section
  }

  /** The section each step's "complete" callback moves to. */
  function NextOf(section: string): (r: string)
    ensures section !in FormSections ==> r == section
  {
    if section == PersonalInfoSection then ExperienceSection
    else if section == ExperienceSection then EducationSection
    else if section == EducationSection then SkillsSection
    else if section == SkillsSection then PreviewSection
    else section
  }

  /** The step numbers map one to one onto the sections, and the labels match the sections' order. */
  lemma StepsNumberSections()
    ensures forall k :: 0 <= k < |Sections| ==> StepOf(Sections[k]) == k + 1
    ensures forall s :: StepOf(s) != 1 ==> s in LaterSections
    ensures forall s :: s !in Sections ==> StepOf(s) == 1
  {
    SectionsDistinct();
  }

  /** From steps 2 to 5 going back lowers the step by exactly one; from anywhere else nothing moves. */
  lemma BackLowersStep(section: string)
    ensures section in LaterSections ==> StepOf(BackOf(section)) == StepOf(section) - 1
    ensures section !in LaterSections ==> BackOf(section) == section
  {
  }

  /** Going forward and then back returns to the same section, for the four sections that have a next one. */
  lemma BackUndoesNext(section: string)
    requires section in FormSections
    ensures BackOf(NextOf(section)) == section
    ensures StepOf(NextOf(section)) == StepOf(section) + 1
  {
  }

  /** What `renderContent` shows: the four forms, and the preview for every other section. */
  datatype View = PersonalInfoForm | ExperienceForm | EducationForm | SkillsForm | Preview

  function Rendered(section: string): (v: View)
    ensures v == Preview <==> section !in FormSections
  {
    if section == PersonalInfoSection then PersonalInfoForm
    else if section == ExperienceSection then ExperienceForm
    else if section == EducationSection then EducationForm
    else if section == SkillsSection then SkillsForm
    else Preview
  }

  /**
   * For the five known sections the step shown and the view rendered agree;
   * an unknown section renders the preview while the counter reads step 1.
   */
  lemma RenderedMatchesStep(section: string)
    ensures section in Sections ==> (Rendered(section) == Preview <==> StepOf(section) == 5)
    ensures section !in Sections ==> Rendered(section) == Preview && StepOf(section) == 1
  {
  }

  /** The keys the progress bar checks, in its own order; the same six the personal form requires. */
  const ProgressFields: seq<PersonalField> := [FirstName, LastName, Email, City, RoleApplyingFor, Summary]

  /** `keys.every(field => p[field]?.trim() !== '')`. */
  predicate AllFilled(p: PersonalInfo, keys: seq<PersonalField>)
    decreases |keys|
  {
    keys == [] || (Trim(Get(p, keys[0])) != "" && AllFilled(p, keys[1..]))
  }

  /** Every checked field is non-empty once trimmed. */
  predicate PersonalInfoComplete(p: PersonalInfo) {
    AllFilled(p, ProgressFields)
  }

  predicate ExperienceComplete(s: ResumeData) {
    |s.experience| > 0 || s.isFresher
  }

  predicate EducationComplete(s: ResumeData) {
    |s.education| > 0
  }

  predicate SkillsComplete(s: ResumeData) {
    |s.skills| > 0
  }

  /** How many of the four parts count as complete. */
  function CompletedSteps(s: ResumeData): (n: nat)
    ensures n <= 4
    ensures n == 4 <==> PersonalInfoComplete(s.personalInfo) && ExperienceComplete(s) && EducationComplete(s) && SkillsComplete(s)
    ensures n == 0 <==> !PersonalInfoComplete(s.personalInfo) && !ExperienceComplete(s) && !EducationComplete(s) && !SkillsComplete(s)
  {
    (if PersonalInfoComplete(s.personalInfo) then 1 else 0)
      + (if ExperienceComplete(s) then 1 else 0)
      + (if EducationComplete(s) then 1 else 0)
      + (if SkillsComplete(s) then 1 else 0)
  }

  /** `Math.round(num / den)` for a non-negative quotient: halves round up. */
  function RoundQuotient(num: nat, den: nat): nat
    requires den > 0
  {
    (2 * num + den) / (2 * den)
  }

  /** The rounded quotient is the nearest whole number, halves going up. */
  lemma RoundQuotientNearest(num: nat, den: nat)
    requires den > 0
    ensures var r := RoundQuotient(num, den); 2 * r * den <= 2 * num + den < 2 * (r + 1) * den
  {
  }

  /** The progress bar's percentage is finished in quarters, so rounding never moves it. */
  lemma ProgressIsQuarters(completed: nat)
    requires completed <= 4
    ensures RoundQuotient(completed * 100, 4) == 25 * completed
    ensures RoundQuotient(completed * 100, 4) in {0, 25, 50, 75, 100}
  {
  }

  /** A list of keys is all filled exactly when none of its values is whitespace only. */
  lemma {:induction false} AllFilledIff(p: PersonalInfo, keys: seq<PersonalField>)
    ensures AllFilled(p, keys) <==> forall k :: 0 <= k < |keys| ==> !AllSpace(Get(p, keys[k]))
    decreases |keys|
  {
    if keys != [] {
      BlankIffAllSpace(Get(p, keys[0]));
      AllFilledIff(p, keys[1..]);
      assert forall k :: 1 <= k < |keys| ==> keys[k] == keys[1..][k - 1];
    }
  }

  /** The two key lists, the progress bar's and the form's, list the same keys. */
  lemma SameKeys(p: PersonalInfo)
    ensures (forall k :: 0 <= k < |ProgressFields| ==> !AllSpace(Get(p, ProgressFields[k]))) <==>
      (forall j :: 0 <= j < |RequiredFields| ==> !MissingAt(p, j))
  {
    var toProgress := [0, 1, 4, 2, 3, 5];
    var toRequired := [0, 1, 3, 4, 2, 5];
    assert forall j :: 0 <= j < 6 ==> RequiredFields[j].0 == ProgressFields[toProgress[j]];
    assert forall k :: 0 <= k < 6 ==> ProgressFields[k] == RequiredFields[toRequired[k]].0;
    if forall k :: 0 <= k < |ProgressFields| ==> !AllSpace(Get(p, ProgressFields[k])) {
      forall j | 0 <= j < |RequiredFields|
        ensures !MissingAt(p, j)
      {
        assert RequiredFields[j].0 == ProgressFields[toProgress[j]];
      }
    }
    if forall j :: 0 <= j < |RequiredFields| ==> !MissingAt(p, j) {
      forall k | 0 <= k < |ProgressFields|
        ensures !AllSpace(Get(p, ProgressFields[k]))
      {
        assert !MissingAt(p, toRequired[k]);
      }
    }
  }

  /**
   * The progress bar counts the personal part complete exactly when the
   * personal form would accept it: the two checks test the same six keys,
   * one by `trim() !== ''`, the other by emptiness or `trim() === ''`.
   */
  lemma PersonalCompleteIffValid(p: PersonalInfo)
    ensures PersonalInfoComplete(p) <==> forall j :: 0 <= j < |RequiredFields| ==> !MissingAt(p, j)
  {
    AllFilledIff(p, ProgressFields);
    SameKeys(p);
  }

  /**
   * `calculateProgress`: one increment per complete part, then the share of
   * four rounded to a whole percentage.
   */
  method CalculateProgress(s: ResumeData) returns (percent: nat)
    ensures percent == 25 * CompletedSteps(s)
    ensures percent in {0, 25, 50, 75, 100}
    ensures percent == 100 <==> PersonalInfoComplete(s.personalInfo) && ExperienceComplete(s) && EducationComplete(s) && SkillsComplete(s)
  {
    var completedSteps := 0;
    if PersonalInfoComplete(s.personalInfo) {
      completedSteps := completedSteps + 1;
    }
    if ExperienceComplete(s) {
      completedSteps := completedSteps + 1;
    }
    if EducationComplete(s) {
      completedSteps := completedSteps + 1;
    }
    if SkillsComplete(s) {
      completedSteps := completedSteps + 1;
    }
    ProgressIsQuarters(completedSteps);
    percent := RoundQuotient(completedSteps * 100, 4);
  }

  class Wizard {
    var activeSection: string
    var currentTemplate: string

    /** First render: the personal section and the default template. */
    constructor ()
      ensures activeSection == PersonalInfoSection && currentTemplate == DefaultTemplate
    {
      activeSection := PersonalInfoSection;
      currentTemplate := DefaultTemplate;
    }

    /**
     * The effect run when the address or the initial template changes, as
     * written: a template named in the address (else the one passed in) is
     * adopted when `in` finds it in the registry, which an inherited name
     * such as "toString" also passes; the section comes from the address,
     * defaulting to the personal section when absent or empty.
     */
    method ApplyUrl(templateFromUrl: Option<string>, sectionFromUrl: Option<string>, initialTemplate: Option<string>)
      modifies this
      ensures var t := TemplateToUse(templateFromUrl, initialTemplate);
        currentTemplate == if Truthy(t) && InRegistryAsWritten(t.value) then t.value else old(currentTemplate)
      ensures activeSection == if Truthy(sectionFromUrl) then sectionFromUrl.value else PersonalInfoSection
      ensures templateFromUrl == Some("toString") ==> currentTemplate == "toString" && !IsTemplateKey(currentTemplate)
      ensures InRegistryAsWritten(old(currentTemplate)) ==> InRegistryAsWritten(currentTemplate)
    {
      var templateToUse := TemplateToUse(templateFromUrl, initialTemplate);
      if Truthy(templateToUse) && InRegistryAsWritten(templateToUse.value) {
        currentTemplate := templateToUse.value;
      }
      if Truthy(sectionFromUrl) {
        activeSection := sectionFromUrl.value;
      } else {
        activeSection := PersonalInfoSection;
      }
    }

    /**
     * The same effect with the registry check corrected to the registered
     * keys: a name the registry only inherits leaves the template as it was,
     * so a registered template stays registered.
     */
    method ApplyUrlChecked(templateFromUrl: Option<string>, sectionFromUrl: Option<string>, initialTemplate: Option<string>)
      modifies this
      ensures var t := TemplateToUse(templateFromUrl, initialTemplate);
        currentTemplate == if Truthy(t) && IsTemplateKey(t.value) then t.value else old(currentTemplate)
      ensures activeSection == if Truthy(sectionFromUrl) then sectionFromUrl.value else PersonalInfoSection
      ensures templateFromUrl == Some("toString") ==> currentTemplate == old(currentTemplate)
      ensures IsTemplateKey(old(currentTemplate)) ==> IsTemplateKey(currentTemplate)
    {
      var templateToUse := TemplateToUse(templateFromUrl, initialTemplate);
      if Truthy(templateToUse) && IsTemplateKey(templateToUse.value) {
        currentTemplate := templateToUse.value;
      }
      if Truthy(sectionFromUrl) {
        activeSection := sectionFromUrl.value;
      } else {
        activeSection := PersonalInfoSection;
      }
    }

    /** `handleSectionClick` and `handleSectionNavigation`: any section may be chosen. */
    method SelectSection(section: string)
      modifies this
      ensures activeSection == section && currentTemplate == old(currentTemplate)
    {
      activeSection := section;
    }

    /** The sidebar's template picker: the chosen key is taken as it is. */
    method SelectTemplate(template: string)
      modifies this
      ensures currentTemplate == template && activeSection == old(activeSection)
    {
      currentTemplate := template;
    }

    /**
     * `handleBackNavigation(from)`: each back button names its own section;
     * the active section becomes the one before it, and an unknown name
     * leaves the active section as it was.
     */
    method BackNavigation(from: string)
      modifies this
      ensures from in LaterSections ==> activeSection == BackOf(from)
      ensures from !in LaterSections ==> activeSection == old(activeSection)
      ensures currentTemplate == old(currentTemplate)
    {
      if from == ExperienceSection {
        activeSection := PersonalInfoSection;
      } else if from == EducationSection {
        activeSection := ExperienceSection;
      } else if from == SkillsSection {
        activeSection := EducationSection;
      } else if from == PreviewSection {
        activeSection := SkillsSection;
      }
    }

    /** A form's "complete" callback: the form shown for the active section moves on to the next section. */
    method CompleteStep()
      modifies this
      requires activeSection in FormSections
      ensures activeSection == NextOf(old(activeSection))
      ensures StepOf(activeSection) == StepOf(old(activeSection)) + 1
      ensures currentTemplate == old(currentTemplate)
    {
      activeSection := NextOf(activeSection);
    }

    /** The counter above the form: "Step n of 5" with its caption. */
    function CurrentStep(): (step: nat)
      reads this
      ensures 1 <= step <= 5 && StepLabel(step) != ""
    {
      StepOf(activeSection)
    }
  }
}
