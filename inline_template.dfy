/**
 * The inline-editing resume template: which document it shows, how the
 * skills are laid out in two columns, the text each field is seeded with when
 * it is clicked, how each field's text is parsed back when it is saved, and
 * the editor object that holds the open fields and their draft values.
 */
module InlineTemplate {
  import opened Wrappers
  import opened JsStrings
  import opened ResumeContext

  // ----------------------------------------------------------- what is shown

  /** The four parts of a document the template renders. */
  datatype DisplayData = DisplayData(
    personalInfo: PersonalInfo,
    experience: seq<Experience>,
    education: seq<Education>,
    skills: seq<Skill>)

  /** The built-in sample resume shown on the template gallery. */
  const SampleData := DisplayData(
    PersonalInfo(
      "ESTELLE", "DARCY", "hello@reallygreatsite.com", "+1 (555) 123-4567",
      "123 Anywhere St.", "Any City", "NY", "10001",
      "Experienced Process Engineer with expertise in automation systems, manufacturing processes, "
      + "and preventive maintenance strategies. Proven track record of increasing operational "
      + "efficiency and reducing costs.",
      "PROCESS ENGINEER", "www.reallygreatsite.com"),
    [ Experience("sample-1", "Company1", "Instrument Tech", "San Francisco, CA", "Jan 2024", "Present", true,
        "Led development of an advanced automation system, achieving a 15% increase in operational "
        + "efficiency. Streamlined manufacturing processes, reducing production costs by 10%. "
        + "Implemented preventive maintenance strategies, resulting in a 20% decrease in equipment downtime."),
      Experience("sample-2", "Company2", "Internship", "Austin, TX", "Jun 2022", "Aug 2022", false,
        "Designed and optimised a robotic control system, realizing a 12% performance improvement. "
        + "Coordinated testing and validation, ensuring compliance with industry standards. "
        + "Provided technical expertise, contributing to a 15% reduction in system failures.") ],
    [ Education("sample-3", "Engineering University", "Bachelor of Design in Process Engineering",
        "Process Engineering", "Boston, MA", "Sep 2019", "Sep 2023", false, "3.8",
        "Relevant coursework in Process Design and Project Management.") ],
    [ Skill("sample-4", "Prototyping Tools", "Expert"),
      Skill("sample-5", "User Research", "Advanced"),
      Skill("sample-6", "Interaction Design", "Advanced"),
      Skill("sample-7", "Visual Design", "Intermediate"),
      Skill("sample-8", "Accessibility", "Intermediate"),
      Skill("sample-9", "Responsive Design", "Advanced") ])

  /** What is shown when there is nothing to show: every field empty, every list empty. */
  const EmptyDisplay := DisplayData(EmptyPersonalInfo, [], [], [])

  function UserDisplay(s: ResumeData): DisplayData {
    DisplayData(s.personalInfo, s.experience, s.education, s.skills)
  }

  /**
   * `hasUserData`: a first name, last name, email or summary that is not
   * blank, or a record in any list. The other personal fields do not count.
   */
  predicate HasUserData(s: ResumeData) {
    || !IsBlank(s.personalInfo.firstName) || !IsBlank(s.personalInfo.lastName)
    || !IsBlank(s.personalInfo.email) || !IsBlank(s.personalInfo.summary)
    || |s.experience| > 0 || |s.education| > 0 || |s.skills| > 0
  }

  /** `finalDisplayData`: the sample, else the user's document when it has data, else the empty one. */
  function FinalDisplayData(useSampleData: bool, s: ResumeData): DisplayData {
    if useSampleData then SampleData
    else if HasUserData(s) then UserDisplay(s)
    else EmptyDisplay
  }

  /**
   * Outside the gallery the lists shown are always the user's own, and the
   * personal record shown is the user's own except when its name, email and
   * summary are all blank, in which case an empty record stands in for it.
   */
  lemma DisplayedIsUsers(useSampleData: bool, s: ResumeData)
    ensures var d := FinalDisplayData(useSampleData, s);
      && (useSampleData ==> d == SampleData)
      && (!useSampleData ==> d.experience == s.experience && d.education == s.education && d.skills == s.skills)
      && (!useSampleData && d.personalInfo != s.personalInfo ==>
            && d.personalInfo == EmptyPersonalInfo
            && IsBlank(s.personalInfo.firstName) && IsBlank(s.personalInfo.lastName)
            && IsBlank(s.personalInfo.email) && IsBlank(s.personalInfo.summary))
  {
  }

  /**
   * The two skill columns: the first `ceil(n / 2)` skills, then the rest.
   * Together they are the list, and the first is as long as the second or one longer.
   */
  function SkillColumns(skills: seq<Skill>): (r: (seq<Skill>, seq<Skill>))
    ensures r.0 + r.1 == skills
    ensures |r.0| == |r.1| || |r.0| == |r.1| + 1
  {
    var half := (|skills| + 1) / 2;
    assert skills[..half] + skills[half..] == skills;
    (skills[..half], skills[half..])
  }

  // ------------------------------------------------------------------- name

  /** The name field's text: first and last name with a space between. */
  function NameLine(p: PersonalInfo): string {
    p.firstName + " " + p.lastName
  }

  /**
   * `handleNameSave`'s parse: the trimmed text split at each space; the first
   * piece is the first name and the other pieces, joined by spaces, the last name.
   */
  function SplitName(value: string): (string, string) {
    var parts := Split(Trim(value), " ");
    (parts[0], Join(parts[1..], " "))
  }

  /** A character of text occurs in it as a one-character string. */
  lemma CharOccurs(p: string, c: char, i: nat)
    requires i < |p| && p[i] == c
    ensures OccursAt(p, [c], i)
  {
    assert p[i..i + 1] == [c];
  }

  /**
   * The first name has no space, and the trimmed text is the first name
   * alone when the last name is empty, and first and last name around one
   * space otherwise.
   */
  lemma SplitNameSpec(value: string)
    ensures ' ' !in SplitName(value).0
    ensures var n := SplitName(value);
      Trim(value) == if n.1 == "" then n.0 else n.0 + " " + n.1
  {
    SplitNameFirstFree(value);
    SplitNameRejoin(value);
  }

  /** The first piece of the split holds no space. */
  lemma SplitNameFirstFree(value: string)
    ensures ' ' !in SplitName(value).0
  {
    var parts := Split(Trim(value), " ");
    var first := parts[0];
    assert SplitName(value).0 == first;
    SplitPiecesFree(Trim(value), " ");
    assert first in parts;
    assert !Contains(first, " ");
    forall i | 0 <= i < |first| ensures first[i] != ' ' {
      if first[i] == ' ' {
        CharOccurs(first, ' ', i);
      }
    }
  }

  /** The two names, rejoined by one space unless the last is empty, are the trimmed text. */
  lemma SplitNameRejoin(value: string)
    ensures var n := SplitName(value);
      Trim(value) == if n.1 == "" then n.0 else n.0 + " " + n.1
  {
    var t := Trim(value);
    var parts := Split(t, " ");
    var first, last := parts[0], Join(parts[1..], " ");
    assert SplitName(value) == (first, last);
    JoinSplit(t, " ");
    assert Join(parts, " ") == t;
    if |parts| == 1 {
      assert last == "";
      assert t == first;
    } else {
      assert t == first + " " + last;
      TrimEnds(value);
      assert t[|t| - 1] == if last == "" then ' ' else last[|last| - 1];
      assert last != "";
    }
  }

  /**
   * Saving the name field unchanged gives back the first and last name, when
   * the first name is non-empty without whitespace and the last name does
   * not end with whitespace.
   */
  lemma NameRoundTrip(first: string, last: string)
    requires first != "" && NoSpace(first)
    requires last == "" || !IsSpace(last[|last| - 1])
    ensures SplitName(first + " " + last) == (first, last)
  {
    var v := first + " " + last;
    SeparableByFirst(first, " ");
    if last == "" {
      assert v == first + [' '];
      TrimTrailingSpace(first, ' ');
      SeparableFree(first, " ");
      SplitNoSeparator(first, " ");
    } else {
      TrimClean(v);
      FirstAfter(first, " ", last);
      SplitAfterFirst(first, " ", last);
      JoinSplit(last, " ");
    }
  }

  // ------------------------------------------------------------------ dates

  const DateSeparator := " - "
  const PresentText := "Present"

  /** The dates field's text: the start, the separator, then `Present` or the end. */
  function DateLine(startDate: string, current: bool, endDate: string): string {
    startDate + DateSeparator + (if current then PresentText else endDate)
  }

  datatype DateFields = DateFields(startDate: string, endDate: string, current: bool)

  /**
   * The dates saves' parse: the text before the first separator is the
   * start; the next piece is the end, where `Present` means current with an
   * empty end and a missing piece means an empty end.
   */
  function ParseDates(value: string): DateFields {
    var parts := Split(value, DateSeparator);
    var isCurrent := |parts| > 1 && parts[1] == PresentText;
    DateFields(parts[0], if isCurrent then "" else Piece(parts, 1), isCurrent)
  }

  /**
   * The start is the text before the first separator and holds none; a
   * current entry has an empty end; text without a separator is all start.
   */
  lemma ParseDatesSpec(value: string)
    ensures var d := ParseDates(value);
      && |d.startDate| <= |value| && value[..|d.startDate|] == d.startDate
      && !Contains(d.startDate, DateSeparator)
      && (d.current ==> d.endDate == "")
      && (!Contains(value, DateSeparator) ==> d == DateFields(value, "", false))
  {
    var parts := Split(value, DateSeparator);
    SplitPiecesFree(value, DateSeparator);
    assert parts[0] in parts;
    if !Contains(value, DateSeparator) {
      SplitNoSeparator(value, DateSeparator);
    }
  }

  predicate EndsWithSpaceDash(p: string) {
    |p| >= 2 && p[|p| - 2..] == " -"
  }

  /** A start with no separator that does not end in ` -` can stand before the separator. */
  lemma StartSeparable(p: string)
    requires !Contains(p, DateSeparator) && !EndsWithSpaceDash(p)
    ensures Separable(p, DateSeparator)
  {
    var q := p + DateSeparator;
    forall j | 0 <= j < |p| ensures !OccursAt(q, DateSeparator, j) {
      var w := q[j..j + 3];
      if j + 3 <= |p| {
        assert w == p[j..j + 3];
        assert !OccursAt(p, DateSeparator, j);
      } else if j == |p| - 1 {
        assert w[2] == '-';
      } else {
        assert w[0] == p[|p| - 2] && w[1] == p[|p| - 1] && w[2] == ' ';
        assert p[|p| - 2..] == [p[|p| - 2], p[|p| - 1]];
      }
    }
  }

  /**
   * Saving the dates field unchanged gives back the start and the current
   * flag, and the end when the entry is not current, provided the start has
   * no separator and does not end in ` -`, and the end has no separator and
   * is not `Present`.
   */
  lemma DatesRoundTrip(startDate: string, current: bool, endDate: string)
    requires !Contains(startDate, DateSeparator) && !EndsWithSpaceDash(startDate)
    requires !Contains(endDate, DateSeparator) && endDate != PresentText
    ensures ParseDates(DateLine(startDate, current, endDate)) ==
      DateFields(startDate, if current then "" else endDate, current)
  {
    var tail := if current then PresentText else endDate;
    StartSeparable(startDate);
    FirstAfter(startDate, DateSeparator, tail);
    SplitAfterFirst(startDate, DateSeparator, tail);
    if current {
      SeparableBySecond(PresentText, DateSeparator);
      SeparableFree(PresentText, DateSeparator);
    }
    SplitNoSeparator(tail, DateSeparator);
  }

  /**
   * A start without the separator is not enough: `Jan -` followed by the
   * separator reads back as the start `Jan`.
   */
  lemma DatesRoundTripNeedsCleanEnd()
    ensures !Contains("Jan -", DateSeparator)
    ensures ParseDates(DateLine("Jan -", false, "2024")).startDate == "Jan"
  {
    assert !Contains("Jan -", DateSeparator) by {
      forall i | 0 <= i <= 5 ensures !OccursAt("Jan -", DateSeparator, i) {
        if i + 3 <= 5 {
          assert "Jan -"[i..i + 3][0] == "Jan -"[i] != ' ';
        }
      }
    }
    var v := DateLine("Jan -", false, "2024");
    assert v == "Jan" + DateSeparator + "- 2024";
    SeparableByFirst("Jan", DateSeparator);
    FirstAfter("Jan", DateSeparator, "- 2024");
    SplitAfterFirst("Jan", DateSeparator, "- 2024");
  }

  /** Nor is an end without the separator enough: an end `May - June` reads back as `May`. */
  lemma DatesRoundTripNeedsPlainEnd()
    ensures ParseDates(DateLine("Jan 2024", false, "May - June")).endDate == "May"
  {
    var v := DateLine("Jan 2024", false, "May - June");
    assert v == "Jan 2024" + DateSeparator + ("May" + DateSeparator + "June");
    SeparableBySecond("Jan 2024", DateSeparator);
    FirstAfter("Jan 2024", DateSeparator, "May" + DateSeparator + "June");
    SplitAfterFirst("Jan 2024", DateSeparator, "May" + DateSeparator + "June");
    SeparableByFirst("May", DateSeparator);
    FirstAfter("May", DateSeparator, "June");
    SplitAfterFirst("May", DateSeparator, "June");
  }

  // ---------------------------------------------------------------- contact

  const ContactSeparator := " | "
  const PlaceSeparator := ", "

  /** The contact field's text: address and city, then email, then website. */
  function ContactLine(p: PersonalInfo): string {
    p.address + PlaceSeparator + p.city + ContactSeparator + p.email + ContactSeparator + p.website
  }

  datatype Contact = Contact(address: string, city: string, email: string, website: string)

  /**
   * `handleContactSave`'s parse: the pieces between ` | ` are the place,
   * the email and the website; the place's pieces between `, ` are the
   * address and the city; a missing piece is empty.
   */
  function ParseContact(value: string): Contact {
    var parts := Split(value, ContactSeparator);
    var place := Split(Piece(parts, 0), PlaceSeparator);
    Contact(Piece(place, 0), Piece(place, 1), Piece(parts, 1), Piece(parts, 2))
  }

  /** Every piece of a split, and the empty string, is free of the separator. */
  lemma PieceFree(s: string, sep: string, k: nat)
    requires |sep| > 0
    ensures !Contains(Piece(Split(s, sep), k), sep)
  {
    var parts := Split(s, sep);
    SplitPiecesFree(s, sep);
    if k < |parts| {
      assert parts[k] in parts;
    }
  }

  /**
   * No parsed email or website holds ` | `, no parsed address or city holds
   * `, `, and text without ` | ` leaves email and website empty.
   */
  lemma ParseContactSpec(value: string)
    ensures var c := ParseContact(value);
      && !Contains(c.email, ContactSeparator) && !Contains(c.website, ContactSeparator)
      && !Contains(c.address, PlaceSeparator) && !Contains(c.city, PlaceSeparator)
      && (!Contains(value, ContactSeparator) ==> c.email == "" && c.website == "")
  {
    var parts := Split(value, ContactSeparator);
    PieceFree(value, ContactSeparator, 1);
    PieceFree(value, ContactSeparator, 2);
    PieceFree(Piece(parts, 0), PlaceSeparator, 0);
    PieceFree(Piece(parts, 0), PlaceSeparator, 1);
    if !Contains(value, ContactSeparator) {
      SplitNoSeparator(value, ContactSeparator);
    }
  }

  /**
   * Saving the contact field unchanged gives back address, city, email and
   * website, provided none holds `|` and neither address nor city holds `,`.
   */
  lemma ContactRoundTrip(p: PersonalInfo)
    requires '|' !in p.address && '|' !in p.city && '|' !in p.email && '|' !in p.website
    requires ',' !in p.address && ',' !in p.city
    ensures ParseContact(ContactLine(p)) == Contact(p.address, p.city, p.email, p.website)
  {
    var place := p.address + PlaceSeparator + p.city;
    assert '|' !in place;
    SeparableBySecond(place, ContactSeparator);
    SeparableBySecond(p.email, ContactSeparator);
    SeparableBySecond(p.website, ContactSeparator);
    var parts := [place, p.email, p.website];
    assert Join(parts[1..], ContactSeparator) == p.email + ContactSeparator + p.website;
    assert Join(parts, ContactSeparator) == ContactLine(p);
    SplitOfJoin(parts, ContactSeparator);
    SeparableByFirst(p.address, PlaceSeparator);
    SeparableByFirst(p.city, PlaceSeparator);
    var pieces := [p.address, p.city];
    assert Join(pieces, PlaceSeparator) == place;
    SplitOfJoin(pieces, PlaceSeparator);
  }

  // ----------------------------------------------------------------- skills

  /** `handleSkillSave`'s dispatch: a blank text deletes the skill, any other renames it to the trimmed text. */
  function SkillCommit(id: string, value: string): Action {
    if IsBlank(value) then DeleteSkill(id)
    else UpdateSkill(id, SkillPatch(None, Some(Trim(value)), None))
  }

  /**
   * A blank skill text removes exactly the skills with the edited id; any
   * other text renames exactly those skills to the trimmed text, keeping
   * their id, level and place; nothing outside the skills changes.
   */
  lemma SkillCommitEffect(s: ResumeData, id: string, value: string)
    ensures var r := Reduce(s, SkillCommit(id, value));
      && (IsBlank(value) ==> forall k :: k in r.skills <==> k in s.skills && k.id != id)
      && (!IsBlank(value) ==>
            && |r.skills| == |s.skills|
            && forall i :: 0 <= i < |s.skills| ==>
                 r.skills[i] == if s.skills[i].id == id then s.skills[i].(name := Trim(value)) else s.skills[i])
      && r.personalInfo == s.personalInfo && r.experience == s.experience
      && r.education == s.education && r.isFresher == s.isFresher
  {
    if IsBlank(value) {
      DeleteSkillRemoves(s, id);
    } else {
      UpdateSkillSpec(s, id, SkillPatch(None, Some(Trim(value)), None));
    }
  }

  /** The level every skill added from the template gets. */
  const AddedSkillLevel := "Advanced"

  /** `handleAddSkillSave`'s dispatch: nothing for a blank text, else a new skill with the trimmed name. */
  function AddSkillAction(now: string, value: string): Option<Action> {
    if IsBlank(value) then None else Some(AddSkill(Skill(now, Trim(value), AddedSkillLevel)))
  }

  /**
   * A non-blank text appends one skill, named by the text trimmed, with
   * level `Advanced` and the clock's id, and changes nothing else.
   */
  lemma AddSkillActionAppends(s: ResumeData, now: string, value: string)
    requires !IsBlank(value)
    ensures var r := Reduce(s, AddSkillAction(now, value).value);
      && r == s.(skills := s.skills + [Skill(now, Trim(value), AddedSkillLevel)])
      && !IsBlank(r.skills[|r.skills| - 1].name)
  {
    var k := Skill(now, Trim(value), AddedSkillLevel);
    AddSkillActionSome(now, value);
    AddSkillAppends(s, k);
    TrimmedNotBlank(value);
    assert (s.skills + [k])[|s.skills|] == k;
  }

  /** A skill is added exactly for a non-blank text, named by the text trimmed. */
  lemma AddSkillActionSome(now: string, value: string)
    ensures AddSkillAction(now, value).Some? <==> !IsBlank(value)
    ensures !IsBlank(value) ==> AddSkillAction(now, value) == Some(AddSkill(Skill(now, Trim(value), AddedSkillLevel)))
  {
  }

  // -------------------------------------------------------------- edit slots

  /** The template's `editing*` states, one per editable field. */
  datatype Slot =
    | NameSlot | SummarySlot | SkillSlot | ExperienceSlot | EducationSlot | RoleSlot
    | ContactSlot | AddressSlot | EmailSlot | WebsiteSlot
    | ExperienceTitleSlot | ExperienceCompanySlot | ExperienceDatesSlot
    | EducationDegreeSlot | EducationDatesSlot | EducationInstitutionSlot | EducationDescriptionSlot

  const AllSlots: set<Slot> := {
    NameSlot, SummarySlot, SkillSlot, ExperienceSlot, EducationSlot, RoleSlot,
    ContactSlot, AddressSlot, EmailSlot, WebsiteSlot,
    ExperienceTitleSlot, ExperienceCompanySlot, ExperienceDatesSlot,
    EducationDegreeSlot, EducationDatesSlot, EducationInstitutionSlot, EducationDescriptionSlot }

  /** The slots most click handlers clear: all but address, email, website and experience company. */
  const CommonSlots: set<Slot> := {
    NameSlot, SummarySlot, SkillSlot, ExperienceSlot, EducationSlot, RoleSlot, ContactSlot,
    ExperienceTitleSlot, ExperienceDatesSlot,
    EducationDegreeSlot, EducationDatesSlot, EducationInstitutionSlot, EducationDescriptionSlot }

  lemma AllSlotsComplete(s: Slot)
    ensures s in AllSlots
  {
  }

  /** The slots a click on a field clears before opening that field, as each handler lists them. */
  function ClearedBy(s: Slot): set<Slot> {
    match s
    case NameSlot | SummarySlot | SkillSlot | ExperienceSlot | EducationSlot | RoleSlot | ContactSlot =>
      CommonSlots - {s}
    case AddressSlot => CommonSlots + {EmailSlot, WebsiteSlot}
    case EmailSlot => CommonSlots + {AddressSlot, WebsiteSlot}
    case WebsiteSlot => CommonSlots + {AddressSlot, EmailSlot}
    case ExperienceDatesSlot => CommonSlots - {ExperienceDatesSlot}
    case ExperienceTitleSlot | ExperienceCompanySlot | EducationDatesSlot | EducationDescriptionSlot =>
      AllSlots - {s}
    case EducationDegreeSlot | EducationInstitutionSlot => AllSlots
  }

  /**
   * The open slots after a click: the cleared ones closed, the clicked one
   * open and carrying the clicked record's id (the empty string for the
   * personal fields, which are plain flags).
   */
  function ClickEditing(editing: map<Slot, string>, s: Slot, id: string): map<Slot, string> {
    (editing - ClearedBy(s))[s := id]
  }

  /** The clicks that close every other slot, as written: the six experience and education field clicks. */
  const ExclusiveAsWritten: set<Slot> := {
    ExperienceTitleSlot, ExperienceCompanySlot,
    EducationDegreeSlot, EducationDatesSlot, EducationInstitutionSlot, EducationDescriptionSlot }

  /**
   * Exactly those six clicks clear every other slot; the eleven others each
   * leave at least one of address, email, website and experience company open.
   */
  lemma ExclusiveClicks(s: Slot)
    ensures AllSlots - {s} <= ClearedBy(s) <==> s in ExclusiveAsWritten
    ensures s !in ExclusiveAsWritten ==>
      exists o :: o in {AddressSlot, EmailSlot, WebsiteSlot, ExperienceCompanySlot} && o != s && o !in ClearedBy(s)
  {
    if s !in ExclusiveAsWritten {
      assert ExperienceCompanySlot !in ClearedBy(s);
    }
  }

  /** As written, clicking the name while the address is open leaves both open. */
  lemma NameClickKeepsAddressOpen()
    ensures ClickEditing(map[AddressSlot := ""], NameSlot, "").Keys == {AddressSlot, NameSlot}
  {
    var e := ClickEditing(map[AddressSlot := ""], NameSlot, "");
    assert AddressSlot !in ClearedBy(NameSlot);
    assert AddressSlot in e && NameSlot in e;
  }

  /**
   * The open field's blur-save closes it, so when at most that field was
   * open, a click that follows the save leaves only the clicked field open,
   * whatever its clear set.
   */
  lemma BlurSaveThenClick(editing: map<Slot, string>, open: Slot, s: Slot, id: string)
    requires editing.Keys <= {open}
    ensures ClickEditing(editing - {open}, s, id).Keys == {s}
  {
    assert (editing - {open}).Keys == {};
  }

  /** The intended click: every other slot closed, the clicked one open. */
  function ExclusiveClickEditing(editing: map<Slot, string>, s: Slot, id: string): map<Slot, string> {
    (editing - (AllSlots - {s}))[s := id]
  }

  /** With the intended click exactly one slot is open afterwards, whatever was open before. */
  lemma ExclusiveClick(editing: map<Slot, string>, s: Slot, id: string)
    ensures ExclusiveClickEditing(editing, s, id).Keys == {s}
    ensures ExclusiveClickEditing(editing, s, id)[s] == id
  {
    var e := ExclusiveClickEditing(editing, s, id);
    forall o | o in e ensures o == s {
      AllSlotsComplete(o);
    }
  }

  /** The slots whose save needs the edited record's id. */
  predicate NeedsId(s: Slot) {
    !(s == NameSlot || s == SummarySlot || s == RoleSlot || s == ContactSlot
      || s == AddressSlot || s == EmailSlot || s == WebsiteSlot)
  }

  // ------------------------------------------------------------ click seeds

  /** What was clicked: a personal field, or a field of one skill, experience or education record. */
  datatype Target =
    | NameTarget | SummaryTarget | RoleTarget | ContactTarget
    | AddressTarget | EmailTarget | WebsiteTarget
    | SkillTarget(skill: Skill)
    | ExperienceDescriptionTarget(exp: Experience)
    | ExperienceTitleTarget(exp: Experience)
    | ExperienceCompanyTarget(exp: Experience)
    | ExperienceDatesTarget(exp: Experience)
    | EducationTarget(edu: Education)
    | EducationDegreeTarget(edu: Education)
    | EducationDatesTarget(edu: Education)
    | EducationInstitutionTarget(edu: Education)
    | EducationDescriptionTarget(edu: Education)

  function SlotOf(t: Target): Slot {
    match t
    case NameTarget => NameSlot
    case SummaryTarget => SummarySlot
    case RoleTarget => RoleSlot
    case ContactTarget => ContactSlot
    case AddressTarget => AddressSlot
    case EmailTarget => EmailSlot
    case WebsiteTarget => WebsiteSlot
    case SkillTarget(_) => SkillSlot
    case ExperienceDescriptionTarget(_) => ExperienceSlot
    case ExperienceTitleTarget(_) => ExperienceTitleSlot
    case ExperienceCompanyTarget(_) => ExperienceCompanySlot
    case ExperienceDatesTarget(_) => ExperienceDatesSlot
    case EducationTarget(_) => EducationSlot
    case EducationDegreeTarget(_) => EducationDegreeSlot
    case EducationDatesTarget(_) => EducationDatesSlot
    case EducationInstitutionTarget(_) => EducationInstitutionSlot
    case EducationDescriptionTarget(_) => EducationDescriptionSlot
  }

  /** The id a click stores in its slot: the record's id, or the empty string for a personal field. */
  function TargetId(t: Target): string {
    match t
    case SkillTarget(k) => k.id
    case ExperienceDescriptionTarget(e) => e.id
    case ExperienceTitleTarget(e) => e.id
    case ExperienceCompanyTarget(e) => e.id
    case ExperienceDatesTarget(e) => e.id
    case EducationTarget(e) => e.id
    case EducationDegreeTarget(e) => e.id
    case EducationDatesTarget(e) => e.id
    case EducationInstitutionTarget(e) => e.id
    case EducationDescriptionTarget(e) => e.id
    case _ => ""
  }

  /**
   * The draft text a click seeds its field with; personal fields read the
   * displayed personal record `p`. The address field is seeded with the city.
   */
  function Seed(t: Target, p: PersonalInfo): string {
    match t
    case NameTarget => NameLine(p)
    case SummaryTarget => p.summary
    case RoleTarget => p.roleApplyingFor
    case ContactTarget => ContactLine(p)
    case AddressTarget => p.city
    case EmailTarget => p.email
    case WebsiteTarget => p.website
    case SkillTarget(k) => k.name
    case ExperienceDescriptionTarget(e) => e.description
    case ExperienceTitleTarget(e) => e.position
    case ExperienceCompanyTarget(e) => e.company
    case ExperienceDatesTarget(e) => DateLine(e.startDate, e.current, e.endDate)
    case EducationTarget(e) => e.description
    case EducationDegreeTarget(e) => e.degree
    case EducationDatesTarget(e) => DateLine(e.startDate, e.current, e.endDate)
    case EducationInstitutionTarget(e) => e.institution
    case EducationDescriptionTarget(e) => e.description
  }

  // ---------------------------------------------------------------- commits

  /**
   * The personal record a personal field's save sends for draft text `v`
   * over the stored record `p`: the field's own keys replaced (the name
   * split into first and last, the contact line into its four parts, the
   * address field writing the city), every other key as stored.
   */
  function Written(s: Slot, v: string, p: PersonalInfo): PersonalInfo {
    match s
    case NameSlot =>
      var n := SplitName(v);
      p.(firstName := n.0, lastName := n.1)
    case SummarySlot => p.(summary := v)
    case RoleSlot => p.(roleApplyingFor := v)
    case ContactSlot =>
      var c := ParseContact(v);
      p.(address := c.address, city := c.city, email := c.email, website := c.website)
    case AddressSlot => p.(city := v)
    case EmailSlot => p.(email := v)
    case WebsiteSlot => p.(website := v)
    case _ => p
  }

  /**
   * What a field's save dispatches for draft text `v`, edited record id `id`
   * and the stored personal record `p`: the personal fields send the whole
   * record with their own keys replaced, the record fields an update of the
   * record with that id.
   */
  function Commit(s: Slot, v: string, id: string, p: PersonalInfo): Action {
    match s
    case NameSlot | SummarySlot | RoleSlot | ContactSlot | AddressSlot | EmailSlot | WebsiteSlot =>
      UpdatePersonalInfo(FullPatch(Written(s, v, p)))
    case SkillSlot => SkillCommit(id, v)
    case ExperienceSlot => UpdateExperience(id, NoExperienceChange.(description := Some(v)))
    case ExperienceTitleSlot => UpdateExperience(id, NoExperienceChange.(position := Some(v)))
    case ExperienceCompanySlot => UpdateExperience(id, NoExperienceChange.(company := Some(v)))
    case ExperienceDatesSlot =>
      var d := ParseDates(v);
      UpdateExperience(id, NoExperienceChange.(startDate := Some(d.startDate), endDate := Some(d.endDate),
                                               current := Some(d.current)))
    case EducationSlot => UpdateEducation(id, NoEducationChange.(description := Some(v)))
    case EducationDegreeSlot => UpdateEducation(id, NoEducationChange.(degree := Some(v)))
    case EducationDatesSlot =>
      var d := ParseDates(v);
      UpdateEducation(id, NoEducationChange.(startDate := Some(d.startDate), endDate := Some(d.endDate),
                                             current := Some(d.current)))
    case EducationInstitutionSlot => UpdateEducation(id, NoEducationChange.(institution := Some(v)))
    case EducationDescriptionSlot => UpdateEducation(id, NoEducationChange.(description := Some(v)))
  }

  /** The personal keys each personal field's save writes. */
  function WrittenKeys(s: Slot): set<PersonalField> {
    match s
    case NameSlot => {FirstName, LastName}
    case SummarySlot => {Summary}
    case RoleSlot => {RoleApplyingFor}
    case ContactSlot => {Address, City, Email, Website}
    case AddressSlot => {City}
    case EmailSlot => {Email}
    case WebsiteSlot => {Website}
    case _ => {}
  }

  /** A personal field's save keeps every key it does not write. */
  lemma WrittenFrame(s: Slot, v: string, p: PersonalInfo)
    ensures forall f :: f !in WrittenKeys(s) ==> Get(Written(s, v, p), f) == Get(p, f)
  {
    match s
    case NameSlot =>
      var n := SplitName(v);
      assert Written(s, v, p) == p.(firstName := n.0, lastName := n.1);
    case ContactSlot =>
      var c := ParseContact(v);
      assert Written(s, v, p) == p.(address := c.address, city := c.city, email := c.email, website := c.website);
    case SummarySlot =>
    case RoleSlot =>
    case AddressSlot =>
    case EmailSlot =>
    case WebsiteSlot =>
    case _ =>
      assert Written(s, v, p) == p;
  }

  /** Sending a whole personal record replaces the stored one and nothing else. */
  lemma SendWholeRecord(st: ResumeData, n: PersonalInfo)
    ensures Reduce(st, UpdatePersonalInfo(FullPatch(n))) == st.(personalInfo := n)
  {
    MergeFullPatch(st.personalInfo, n);
  }

  /**
   * A personal field's save, made with the stored record, changes only the
   * keys it writes and no list or flag.
   */
  lemma PersonalCommitFrame(st: ResumeData, s: Slot, v: string)
    requires !NeedsId(s)
    ensures var r := Reduce(st, Commit(s, v, "", st.personalInfo));
      && (forall f :: f !in WrittenKeys(s) ==> Get(r.personalInfo, f) == Get(st.personalInfo, f))
      && r.experience == st.experience && r.education == st.education
      && r.skills == st.skills && r.isFresher == st.isFresher
  {
    var n := Written(s, v, st.personalInfo);
    assert Commit(s, v, "", st.personalInfo) == UpdatePersonalInfo(FullPatch(n));
    SendWholeRecord(st, n);
    WrittenFrame(s, v, st.personalInfo);
  }

  /** A record field's save leaves the personal record and the fresher flag alone. */
  lemma RecordCommitFrame(st: ResumeData, s: Slot, v: string, id: string)
    requires NeedsId(s)
    ensures var r := Reduce(st, Commit(s, v, id, st.personalInfo));
      r.personalInfo == st.personalInfo && r.isFresher == st.isFresher
  {
    if s == SkillSlot {
      SkillCommitEffect(st, id, v);
    }
  }

  /**
   * Saving the name field with the text it was seeded with from the stored
   * record leaves the document as it was, for a non-empty first name
   * without whitespace and a last name not ending in whitespace.
   */
  lemma UnchangedNameSaveKeeps(st: ResumeData)
    requires st.personalInfo.firstName != "" && NoSpace(st.personalInfo.firstName)
    requires st.personalInfo.lastName == "" || !IsSpace(st.personalInfo.lastName[|st.personalInfo.lastName| - 1])
    ensures Reduce(st, Commit(NameSlot, Seed(NameTarget, st.personalInfo), "", st.personalInfo)) == st
  {
    var p := st.personalInfo;
    NameRoundTrip(p.firstName, p.lastName);
    SendWholeRecord(st, p);
  }

  /**
   * Saving a dates field with its seeded text writes the record's start and
   * current flag back, and its end when not current (an empty end when it is).
   */
  lemma UnchangedDatesSaveKeeps(st: ResumeData, e: Experience)
    requires !Contains(e.startDate, DateSeparator) && !EndsWithSpaceDash(e.startDate)
    requires !Contains(e.endDate, DateSeparator) && e.endDate != PresentText
    ensures var r := Reduce(st, Commit(ExperienceDatesSlot, Seed(ExperienceDatesTarget(e), st.personalInfo), e.id, st.personalInfo));
      && |r.experience| == |st.experience|
      && forall i :: 0 <= i < |st.experience| ==>
           r.experience[i] == if st.experience[i].id == e.id
             then st.experience[i].(startDate := e.startDate, endDate := if e.current then "" else e.endDate,
                                    current := e.current)
             else st.experience[i]
  {
    var v := DateLine(e.startDate, e.current, e.endDate);
    DatesRoundTrip(e.startDate, e.current, e.endDate);
    var d := ParseDates(v);
    var q := NoExperienceChange.(startDate := Some(d.startDate), endDate := Some(d.endDate), current := Some(d.current));
    assert Commit(ExperienceDatesSlot, Seed(ExperienceDatesTarget(e), st.personalInfo), e.id, st.personalInfo)
      == UpdateExperience(e.id, q);
    UpdateExperienceSpec(st, e.id, q);
  }

  /**
   * Saving the contact field with the text it was seeded with from the
   * stored record leaves the document as it was, when no contact part holds
   * `|` and neither address nor city holds `,`.
   */
  lemma UnchangedContactSaveKeeps(st: ResumeData)
    requires var p := st.personalInfo;
      '|' !in p.address && '|' !in p.city && '|' !in p.email && '|' !in p.website
      && ',' !in p.address && ',' !in p.city
    ensures Reduce(st, Commit(ContactSlot, Seed(ContactTarget, st.personalInfo), "", st.personalInfo)) == st
  {
    var p := st.personalInfo;
    ContactRoundTrip(p);
    SendWholeRecord(st, p);
  }

  /**
   * As written a personal field is seeded from the displayed record, which
   * hides the stored one while name, email and summary are blank and the
   * lists are empty: the role shown is empty, and clicking the role and
   * leaving it saves that empty text over the stored role.
   */
  lemma HiddenRoleErased(st: ResumeData)
    requires !HasUserData(st)
    ensures var shown := FinalDisplayData(false, st).personalInfo;
      && shown.roleApplyingFor == ""
      && Reduce(st, Commit(RoleSlot, Seed(RoleTarget, shown), "", st.personalInfo)).personalInfo
         == st.personalInfo.(roleApplyingFor := "")
  {
    var shown := FinalDisplayData(false, st).personalInfo;
    assert shown == EmptyPersonalInfo;
    assert Seed(RoleTarget, shown) == "";
    var written := st.personalInfo.(roleApplyingFor := "");
    assert Commit(RoleSlot, "", "", st.personalInfo) == UpdatePersonalInfo(FullPatch(written));
    SendWholeRecord(st, written);
  }

  /** A role typed into an empty resume is stored, and the resume still counts as having no data. */
  lemma RoleOnEmptyResumeHidden(role: string)
    ensures var s1 := Reduce(InitialState, Commit(RoleSlot, role, "", InitialState.personalInfo));
      s1.personalInfo.roleApplyingFor == role && !HasUserData(s1)
  {
    var typed := EmptyPersonalInfo.(roleApplyingFor := role);
    assert InitialState.personalInfo == EmptyPersonalInfo;
    assert Commit(RoleSlot, role, "", EmptyPersonalInfo) == UpdatePersonalInfo(FullPatch(typed));
    SendWholeRecord(InitialState, typed);
    EmptyIsBlank();
    assert typed.firstName == "" && typed.lastName == "" && typed.email == "" && typed.summary == "";
  }

  lemma EmptyIsBlank()
    ensures IsBlank("")
  {
  }

  /** The intended seeding: the stored record outside the gallery, whatever is displayed. */
  function SeedRecord(useSampleData: bool, st: ResumeData): PersonalInfo {
    if useSampleData then SampleData.personalInfo else st.personalInfo
  }

  /**
   * Seeded from the stored record, clicking a summary, role, address, email
   * or website field and leaving it unchanged keeps the document as it was.
   */
  lemma SeedRecordKeeps(st: ResumeData, t: Target)
    requires t == SummaryTarget || t == RoleTarget || t == AddressTarget || t == EmailTarget || t == WebsiteTarget
    ensures Reduce(st, Commit(SlotOf(t), Seed(t, SeedRecord(false, st)), "", st.personalInfo)) == st
  {
    var p := st.personalInfo;
    assert Written(SlotOf(t), Seed(t, p), p) == p;
    SendWholeRecord(st, p);
  }

  // ----------------------------------------------------------------- editor

  /** The experience fields a placeholder click on an empty experience section can open. */
  const ExperiencePlaceholders: set<Slot> := {ExperienceTitleSlot, ExperienceDatesSlot, ExperienceCompanySlot, ExperienceSlot}
  /** The education fields a placeholder click on an empty education section can open. */
  const EducationPlaceholders: set<Slot> := {EducationDegreeSlot, EducationDatesSlot, EducationInstitutionSlot}

  /** The target a placeholder click opens on an existing experience. */
  function ExperienceTargetFor(s: Slot, e: Experience): Target
    requires s in ExperiencePlaceholders
  {
    match s
    case ExperienceTitleSlot => ExperienceTitleTarget(e)
    case ExperienceDatesSlot => ExperienceDatesTarget(e)
    case ExperienceCompanySlot => ExperienceCompanyTarget(e)
    case ExperienceSlot => ExperienceDescriptionTarget(e)
  }

  function EducationTargetFor(s: Slot, e: Education): Target
    requires s in EducationPlaceholders
  {
    match s
    case EducationDegreeSlot => EducationDegreeTarget(e)
    case EducationDatesSlot => EducationDatesTarget(e)
    case EducationInstitutionSlot => EducationInstitutionTarget(e)
  }

  /**
   * The template component's editing state: the open slots with the id each
   * carries, the draft text of each field, and the add-skill input, over the
   * document store it reads and dispatches to.
   */
  class InlineEditor {
    const store: ResumeProvider
    const useSampleData: bool
    const isEditable: bool
    var editing: map<Slot, string>
    var drafts: map<Slot, string>
    var addingSkill: bool
    var newSkillValue: string

    constructor (store: ResumeProvider, useSampleData: bool, isEditable: bool)
      ensures this.store == store && this.useSampleData == useSampleData && this.isEditable == isEditable
      ensures editing == map[] && drafts == map[] && !addingSkill && newSkillValue == ""
    {
      this.store := store;
      this.useSampleData := useSampleData;
      this.isEditable := isEditable;
      editing := map[];
      drafts := map[];
      addingSkill := false;
      newSkillValue := "";
    }

    /** What the template shows. */
    function Display(): DisplayData
      reads this, store
    {
      FinalDisplayData(useSampleData, store.state)
    }

    /** A field's draft text; every draft starts empty. */
    function Draft(s: Slot): string
      reads this
    {
      if s in drafts then drafts[s] else ""
    }

    /** The id an open slot carries, or the empty string (`null` and the flags alike). */
    function EditingId(s: Slot): string
      reads this
    {
      if s in editing then editing[s] else ""
    }

    /** Whether a field's save dispatches: editable, not the sample, and for a record field a non-empty id. */
    predicate SaveDispatches(s: Slot)
      reads this
    {
      isEditable && !useSampleData && (!NeedsId(s) || EditingId(s) != "")
    }

    /**
     * A click on a field: when editable, the slots its handler lists are
     * closed, the clicked slot opens with the record's id and the draft is
     * seeded from the displayed document; otherwise nothing happens.
     */
    method Click(t: Target)
      modifies this
      ensures isEditable ==> editing == ClickEditing(old(editing), SlotOf(t), TargetId(t))
      ensures isEditable ==> drafts == old(drafts)[SlotOf(t) := Seed(t, Display().personalInfo)]
      ensures !isEditable ==> editing == old(editing) && drafts == old(drafts)
      ensures addingSkill == old(addingSkill) && newSkillValue == old(newSkillValue)
    {
      if isEditable {
        var s := SlotOf(t);
        editing := (editing - ClearedBy(s))[s := TargetId(t)];
        drafts := drafts[s := Seed(t, Display().personalInfo)];
      }
    }

    /**
     * The intended click, under which at most one field is open: every other
     * slot closes, whichever was open before.
     */
    method ClickExclusive(t: Target)
      modifies this
      ensures isEditable ==> editing == ExclusiveClickEditing(old(editing), SlotOf(t), TargetId(t))
      ensures isEditable ==> editing.Keys == {SlotOf(t)}
      ensures isEditable ==> drafts == old(drafts)[SlotOf(t) := Seed(t, Display().personalInfo)]
      ensures !isEditable ==> editing == old(editing) && drafts == old(drafts)
      ensures addingSkill == old(addingSkill) && newSkillValue == old(newSkillValue)
    {
      if isEditable {
        var s := SlotOf(t);
        ExclusiveClick(editing, s, TargetId(t));
        editing := ExclusiveClickEditing(editing, s, TargetId(t));
        drafts := drafts[s := Seed(t, Display().personalInfo)];
      }
    }

    /** Typing into an open field replaces its draft. */
    method Type(s: Slot, v: string)
      modifies this
      ensures drafts == old(drafts)[s := v] && Draft(s) == v
      ensures editing == old(editing) && addingSkill == old(addingSkill) && newSkillValue == old(newSkillValue)
    {
      drafts := drafts[s := v];
    }

    /** Escape: the field closes and nothing is dispatched. */
    method Cancel(s: Slot)
      modifies this
      ensures editing == old(editing) - {s} && s !in editing
      ensures drafts == old(drafts) && addingSkill == old(addingSkill) && newSkillValue == old(newSkillValue)
    {
      editing := editing - {s};
    }

    /**
     * Leaving a field or pressing Enter: when the guard holds, the field's
     * commit is dispatched with its draft, its id and the stored personal
     * record; the field then closes (after the handler's short delay).
     */
    method Save(s: Slot)
      modifies this, store
      ensures old(SaveDispatches(s)) ==>
        store.state == Reduce(old(store.state), Commit(s, old(Draft(s)), old(EditingId(s)), old(store.state.personalInfo)))
      ensures !old(SaveDispatches(s)) ==> store.state == old(store.state)
      ensures store.idCounter == old(store.idCounter)
      ensures editing == old(editing) - {s} && drafts == old(drafts)
      ensures addingSkill == old(addingSkill) && newSkillValue == old(newSkillValue)
    {
      if SaveDispatches(s) {
        store.Dispatch(Commit(s, Draft(s), EditingId(s), store.state.personalInfo));
      }
      editing := editing - {s};
    }

    /** `handleSkillDelete`: under the save guard, the skill with that id is deleted. */
    method DeleteSkill(id: string)
      modifies store
      ensures isEditable && !useSampleData ==> store.state == Reduce(old(store.state), Action.DeleteSkill(id))
      ensures !(isEditable && !useSampleData) ==> store.state == old(store.state)
      ensures store.idCounter == old(store.idCounter)
    {
      if isEditable && !useSampleData {
        store.Dispatch(Action.DeleteSkill(id));
      }
    }

    /** The add-skill button: an empty input opens. */
    method AddSkillClick()
      modifies this
      ensures addingSkill && newSkillValue == ""
      ensures editing == old(editing) && drafts == old(drafts)
    {
      addingSkill := true;
      newSkillValue := "";
    }

    method TypeNewSkill(v: string)
      modifies this
      ensures newSkillValue == v && addingSkill == old(addingSkill)
      ensures editing == old(editing) && drafts == old(drafts)
    {
      newSkillValue := v;
    }

    /** Escape in the add-skill input: it closes and empties. */
    method CancelAddSkill()
      modifies this
      ensures !addingSkill && newSkillValue == ""
      ensures editing == old(editing) && drafts == old(drafts)
    {
      addingSkill := false;
      newSkillValue := "";
    }

    /**
     * `handleAddSkillSave`, with the clock's reading `now` as the id: a
     * non-blank input adds a skill, whatever the editable and sample flags
     * say; the input then closes and empties.
     */
    method AddSkillSave(now: string)
      modifies this, store
      ensures !IsBlank(old(newSkillValue)) ==>
        store.state == Reduce(old(store.state), AddSkillAction(now, old(newSkillValue)).value)
      ensures IsBlank(old(newSkillValue)) ==> store.state == old(store.state)
      ensures store.idCounter == old(store.idCounter)
      ensures !addingSkill && newSkillValue == ""
      ensures editing == old(editing) && drafts == old(drafts)
    {
      SendSkill(now);
      addingSkill := false;
      newSkillValue := "";
    }

    /** The store half of `handleAddSkillSave`: the skill is dispatched when the text is not blank. */
    method SendSkill(now: string)
      modifies store
      ensures !IsBlank(newSkillValue) ==>
        store.state == Reduce(old(store.state), AddSkillAction(now, newSkillValue).value)
      ensures IsBlank(newSkillValue) ==> store.state == old(store.state)
      ensures store.idCounter == old(store.idCounter)
    {
      AddSkillActionSome(now, newSkillValue);
      if !IsBlank(newSkillValue) {
        store.Dispatch(AddSkillAction(now, newSkillValue).value);
      }
    }

    /**
     * A click on a placeholder of the empty experience section, with the
     * clock's reading `now`: when editable, an empty experience with id `now`
     * is added and its field opened with an empty draft, or, when an
     * experience is shown, the first one's field is opened and seeded. No
     * other slot is closed.
     */
    method ExperiencePlaceholderClick(s: Slot, now: string)
      requires s in ExperiencePlaceholders
      modifies this, store
      ensures isEditable && |old(Display()).experience| == 0 ==>
        && store.state == Reduce(old(store.state), AddExperience(Experience(now, "", "", "", "", "", false, "")))
        && editing == old(editing)[s := now] && drafts == old(drafts)[s := ""]
      ensures isEditable && |old(Display()).experience| > 0 ==>
        var first := old(Display()).experience[0];
        && store.state == old(store.state)
        && editing == old(editing)[s := first.id]
        && drafts == old(drafts)[s := Seed(ExperienceTargetFor(s, first), old(Display()).personalInfo)]
      ensures !isEditable ==> store.state == old(store.state) && editing == old(editing) && drafts == old(drafts)
      ensures store.idCounter == old(store.idCounter)
      ensures addingSkill == old(addingSkill) && newSkillValue == old(newSkillValue)
    {
      if isEditable {
        var shown := Display();
        if |shown.experience| == 0 {
          store.Dispatch(AddExperience(Experience(now, "", "", "", "", "", false, "")));
          editing := editing[s := now];
          drafts := drafts[s := ""];
        } else {
          var first := shown.experience[0];
          editing := editing[s := first.id];
          drafts := drafts[s := Seed(ExperienceTargetFor(s, first), shown.personalInfo)];
        }
      }
    }

    /** The same for a placeholder of the empty education section. */
    method EducationPlaceholderClick(s: Slot, now: string)
      requires s in EducationPlaceholders
      modifies this, store
      ensures isEditable && |old(Display()).education| == 0 ==>
        && store.state == Reduce(old(store.state), AddEducation(Education(now, "", "", "", "", "", "", false, "", "")))
        && editing == old(editing)[s := now] && drafts == old(drafts)[s := ""]
      ensures isEditable && |old(Display()).education| > 0 ==>
        var first := old(Display()).education[0];
        && store.state == old(store.state)
        && editing == old(editing)[s := first.id]
        && drafts == old(drafts)[s := Seed(EducationTargetFor(s, first), old(Display()).personalInfo)]
      ensures !isEditable ==> store.state == old(store.state) && editing == old(editing) && drafts == old(drafts)
      ensures store.idCounter == old(store.idCounter)
      ensures addingSkill == old(addingSkill) && newSkillValue == old(newSkillValue)
    {
      if isEditable {
        var shown := Display();
        if |shown.education| == 0 {
          store.Dispatch(AddEducation(Education(now, "", "", "", "", "", "", false, "", "")));
          editing := editing[s := now];
          drafts := drafts[s := ""];
        } else {
          var first := shown.education[0];
          editing := editing[s := first.id];
          drafts := drafts[s := Seed(EducationTargetFor(s, first), shown.personalInfo)];
        }
      }
    }
  }
}
