/**
 * The resume document store: the document types, the reducer that applies
 * one action to a document, and the provider object that holds the document
 * together with the counter from which new record ids are drawn.
 */
module ResumeContext {
  import opened Wrappers
  import opened JsStrings

  // ------------------------------------------------------------ documents

  datatype PersonalInfo = PersonalInfo(
    firstName: string, lastName: string, email: string, phone: string,
    address: string, city: string, state: string, zipCode: string,
    summary: string, roleApplyingFor: string, website: string)

  /** The keys of a personal-info record. */
  datatype PersonalField =
    | FirstName | LastName | Email | Phone | Address | City | State | ZipCode
    | Summary | RoleApplyingFor | Website

  /** `personalInfo[f]`. */
  function Get(p: PersonalInfo, f: PersonalField): string {
    match f
    case FirstName => p.firstName
    case LastName => p.lastName
    case Email => p.email
    case Phone => p.phone
    case Address => p.address
    case City => p.city
    case State => p.state
    case ZipCode => p.zipCode
    case Summary => p.summary
    case RoleApplyingFor => p.roleApplyingFor
    case Website => p.website
  }

  /** `{ ...p, [f]: v }`: only field `f` changes. */
  function With(p: PersonalInfo, f: PersonalField, v: string): (r: PersonalInfo)
    ensures forall g :: Get(r, g) == if g == f then v else Get(p, g)
  {
    match f
    case FirstName => p.(firstName := v)
    case LastName => p.(lastName := v)
    case Email => p.(email := v)
    case Phone => p.(phone := v)
    case Address => p.(address := v)
    case City => p.(city := v)
    case State => p.(state := v)
    case ZipCode => p.(zipCode := v)
    case Summary => p.(summary := v)
    case RoleApplyingFor => p.(roleApplyingFor := v)
    case Website => p.(website := v)
  }

  /** Two personal-info records with the same value at every key are equal. */
  lemma PersonalInfoExt(p: PersonalInfo, q: PersonalInfo)
    requires forall f :: Get(p, f) == Get(q, f)
    ensures p == q
  {
    assert Get(p, FirstName) == Get(q, FirstName) && Get(p, LastName) == Get(q, LastName);
    assert Get(p, Email) == Get(q, Email) && Get(p, Phone) == Get(q, Phone);
    assert Get(p, Address) == Get(q, Address) && Get(p, City) == Get(q, City);
    assert Get(p, State) == Get(q, State) && Get(p, ZipCode) == Get(q, ZipCode);
    assert Get(p, Summary) == Get(q, Summary) && Get(p, Website) == Get(q, Website);
    assert Get(p, RoleApplyingFor) == Get(q, RoleApplyingFor);
  }

  const EmptyPersonalInfo := PersonalInfo("", "", "", "", "", "", "", "", "", "", "")

  datatype Experience = Experience(
    id: string, company: string, position: string, location: string,
    startDate: string, endDate: string, current: bool, description: string)

  /** An experience without its id: what `addExperience` takes and what the wizard form holds. */
  datatype ExperienceFields = ExperienceFields(
    company: string, position: string, location: string,
    startDate: string, endDate: string, current: bool, description: string)

  function ExperienceWithId(f: ExperienceFields, id: string): Experience {
    Experience(id, f.company, f.position, f.location, f.startDate, f.endDate, f.current, f.description)
  }

  datatype Education = Education(
    id: string, institution: string, degree: string, field: string, location: string,
    startDate: string, endDate: string, current: bool, gpa: string, description: string)

  datatype EducationFields = EducationFields(
    institution: string, degree: string, field: string, location: string,
    startDate: string, endDate: string, current: bool, gpa: string, description: string)

  function EducationWithId(f: EducationFields, id: string): Education {
    Education(id, f.institution, f.degree, f.field, f.location, f.startDate, f.endDate,
              f.current, f.gpa, f.description)
  }

  datatype Skill = Skill(id: string, name: string, level: string)

  datatype SkillFields = SkillFields(name: string, level: string)

  function SkillWithId(f: SkillFields, id: string): Skill {
    Skill(id, f.name, f.level)
  }

  datatype ResumeData = ResumeData(
    personalInfo: PersonalInfo,
    experience: seq<Experience>,
    education: seq<Education>,
    skills: seq<Skill>,
    isFresher: bool)

  /** The document a fresh store starts from and `RESET_DATA` returns to. */
  const InitialState := ResumeData(EmptyPersonalInfo, [], [], [], false)

  // -------------------------------------------------------------- patches

  /** `Partial<PersonalInfo>`: `None` is an absent key. */
  datatype PersonalInfoPatch = PersonalInfoPatch(
    firstName: Option<string>, lastName: Option<string>, email: Option<string>,
    phone: Option<string>, address: Option<string>, city: Option<string>,
    state: Option<string>, zipCode: Option<string>, summary: Option<string>,
    roleApplyingFor: Option<string>, website: Option<string>)

  function PatchGet(q: PersonalInfoPatch, f: PersonalField): Option<string> {
    match f
    case FirstName => q.firstName
    case LastName => q.lastName
    case Email => q.email
    case Phone => q.phone
    case Address => q.address
    case City => q.city
    case State => q.state
    case ZipCode => q.zipCode
    case Summary => q.summary
    case RoleApplyingFor => q.roleApplyingFor
    case Website => q.website
  }

  /** A whole record spread into a payload (`{ ...p }`): every key present. */
  function FullPatch(p: PersonalInfo): (q: PersonalInfoPatch)
    ensures forall f :: PatchGet(q, f) == Some(Get(p, f))
  {
    PersonalInfoPatch(Some(p.firstName), Some(p.lastName), Some(p.email), Some(p.phone),
                      Some(p.address), Some(p.city), Some(p.state), Some(p.zipCode),
                      Some(p.summary), Some(p.roleApplyingFor), Some(p.website))
  }

  /** `{ ...p, ...q }`. */
  function MergePersonalInfo(p: PersonalInfo, q: PersonalInfoPatch): PersonalInfo {
    PersonalInfo(
      q.firstName.GetOr(p.firstName), q.lastName.GetOr(p.lastName), q.email.GetOr(p.email),
      q.phone.GetOr(p.phone), q.address.GetOr(p.address), q.city.GetOr(p.city),
      q.state.GetOr(p.state), q.zipCode.GetOr(p.zipCode), q.summary.GetOr(p.summary),
      q.roleApplyingFor.GetOr(p.roleApplyingFor), q.website.GetOr(p.website))
  }

  /** After a merge every key holds the payload value if present and its old value otherwise. */
  lemma MergeGet(p: PersonalInfo, q: PersonalInfoPatch)
    ensures forall f :: Get(MergePersonalInfo(p, q), f) == PatchGet(q, f).GetOr(Get(p, f))
  {
    forall f ensures Get(MergePersonalInfo(p, q), f) == PatchGet(q, f).GetOr(Get(p, f)) {
      match f
      case FirstName => case LastName => case Email => case Phone => case Address =>
      case City => case State => case ZipCode => case Summary => case RoleApplyingFor =>
      case Website =>
    }
  }

  /** Merging a full payload replaces the record by the payload's record. */
  lemma MergeFullPatch(p: PersonalInfo, n: PersonalInfo)
    ensures MergePersonalInfo(p, FullPatch(n)) == n
  {
    MergeGet(p, FullPatch(n));
    PersonalInfoExt(MergePersonalInfo(p, FullPatch(n)), n);
  }

  /** `Partial<Experience>`. */
  datatype ExperiencePatch = ExperiencePatch(
    id: Option<string>, company: Option<string>, position: Option<string>,
    location: Option<string>, startDate: Option<string>, endDate: Option<string>,
    current: Option<bool>, description: Option<string>)

  const NoExperienceChange := ExperiencePatch(None, None, None, None, None, None, None, None)

  function MergeExperience(e: Experience, q: ExperiencePatch): Experience {
    Experience(q.id.GetOr(e.id), q.company.GetOr(e.company), q.position.GetOr(e.position),
               q.location.GetOr(e.location), q.startDate.GetOr(e.startDate),
               q.endDate.GetOr(e.endDate), q.current.GetOr(e.current),
               q.description.GetOr(e.description))
  }

  /** `Partial<Education>`. */
  datatype EducationPatch = EducationPatch(
    id: Option<string>, institution: Option<string>, degree: Option<string>,
    field: Option<string>, location: Option<string>, startDate: Option<string>,
    endDate: Option<string>, current: Option<bool>, gpa: Option<string>,
    description: Option<string>)

  const NoEducationChange := EducationPatch(None, None, None, None, None, None, None, None, None, None)

  function MergeEducation(e: Education, q: EducationPatch): Education {
    Education(q.id.GetOr(e.id), q.institution.GetOr(e.institution), q.degree.GetOr(e.degree),
              q.field.GetOr(e.field), q.location.GetOr(e.location),
              q.startDate.GetOr(e.startDate), q.endDate.GetOr(e.endDate),
              q.current.GetOr(e.current), q.gpa.GetOr(e.gpa),
              q.description.GetOr(e.description))
  }

  /** `Partial<Skill>`. */
  datatype SkillPatch = SkillPatch(id: Option<string>, name: Option<string>, level: Option<string>)

  function MergeSkill(s: Skill, q: SkillPatch): Skill {
    Skill(q.id.GetOr(s.id), q.name.GetOr(s.name), q.level.GetOr(s.level))
  }

  // ------------------------------------------------------- list operations

  /** `xs.map(x => idOf(x) === id ? merge(x) : x)`. */
  function UpdateWhere<T>(xs: seq<T>, idOf: T -> string, id: string, merge: T -> T): seq<T> {
    seq(|xs|, i requires 0 <= i < |xs| => if idOf(xs[i]) == id then merge(xs[i]) else xs[i])
  }

  /** The mapped list keeps its length; an element is merged exactly when it carries the id. */
  lemma UpdateWhereAt<T>(xs: seq<T>, idOf: T -> string, id: string, merge: T -> T)
    ensures |UpdateWhere(xs, idOf, id, merge)| == |xs|
    ensures forall i :: 0 <= i < |xs| ==>
      UpdateWhere(xs, idOf, id, merge)[i] == if idOf(xs[i]) == id then merge(xs[i]) else xs[i]
  {
  }

  /** `xs.filter(x => idOf(x) !== id)`. */
  function RemoveId<T>(xs: seq<T>, idOf: T -> string, id: string): seq<T>
    decreases |xs|
  {
    if xs == [] then []
    else (if idOf(xs[0]) == id then [] else [xs[0]]) + RemoveId(xs[1..], idOf, id)
  }

  /** How many elements of `xs` carry the id `id`. */
  function CountId<T>(xs: seq<T>, idOf: T -> string, id: string): nat
    decreases |xs|
  {
    if xs == [] then 0
    else (if idOf(xs[0]) == id then 1 else 0) + CountId(xs[1..], idOf, id)
  }

  /** A filtered list keeps exactly the elements whose id differs from `id`. */
  lemma {:induction false} RemoveIdMembers<T>(xs: seq<T>, idOf: T -> string, id: string)
    ensures forall x :: x in RemoveId(xs, idOf, id) <==> x in xs && idOf(x) != id
    ensures |RemoveId(xs, idOf, id)| + CountId(xs, idOf, id) == |xs|
    decreases |xs|
  {
    if xs != [] {
      RemoveIdMembers(xs[1..], idOf, id);
      assert forall x :: x in xs <==> x == xs[0] || x in xs[1..];
    }
  }

  /** Filtering distributes over concatenation, so relative order is kept. */
  lemma {:induction false} RemoveIdConcat<T>(a: seq<T>, b: seq<T>, idOf: T -> string, id: string)
    ensures RemoveId(a + b, idOf, id) == RemoveId(a, idOf, id) + RemoveId(b, idOf, id)
    decreases |a|
  {
    if a != [] {
      var h := if idOf(a[0]) == id then [] else [a[0]];
      assert (a + b)[0] == a[0] && (a + b)[1..] == a[1..] + b;
      RemoveIdConcat(a[1..], b, idOf, id);
      calc {
        RemoveId(a + b, idOf, id);
        h + RemoveId(a[1..] + b, idOf, id);
        h + (RemoveId(a[1..], idOf, id) + RemoveId(b, idOf, id));
        (h + RemoveId(a[1..], idOf, id)) + RemoveId(b, idOf, id);
      }
    } else {
      assert a + b == b;
    }
  }

  /** Removing an id nobody carries leaves the list unchanged. */
  lemma {:induction false} RemoveAbsentId<T>(xs: seq<T>, idOf: T -> string, id: string)
    requires forall x <- xs :: idOf(x) != id
    ensures RemoveId(xs, idOf, id) == xs
    decreases |xs|
  {
    if xs != [] {
      RemoveAbsentId(xs[1..], idOf, id);
      assert xs == [xs[0]] + xs[1..];
    }
  }

  // --------------------------------------------------------------- reducer

  datatype Action =
    | UpdatePersonalInfo(info: PersonalInfoPatch)
    | AddExperience(experience: Experience)
    | UpdateExperience(expId: string, expData: ExperiencePatch)
    | DeleteExperience(expTarget: string)
    | AddEducation(education: Education)
    | UpdateEducation(eduId: string, eduData: EducationPatch)
    | DeleteEducation(eduTarget: string)
    | AddSkill(skill: Skill)
    | UpdateSkill(skillId: string, skillData: SkillPatch)
    | DeleteSkill(skillTarget: string)
    | SetFresher(fresher: bool)
    | LoadData(data: ResumeData)
    | ResetData

  function ExperienceId(e: Experience): string { e.id }
  function EducationId(e: Education): string { e.id }
  function SkillId(s: Skill): string { s.id }

  /** `resumeReducer`. */
  function Reduce(s: ResumeData, a: Action): ResumeData {
    match a
    case UpdatePersonalInfo(q) => s.(personalInfo := MergePersonalInfo(s.personalInfo, q))
    case AddExperience(e) => s.(experience := s.experience + [e])
    case UpdateExperience(id, q) =>
      s.(experience := UpdateWhere(s.experience, ExperienceId, id, e => MergeExperience(e, q)))
    case DeleteExperience(id) => s.(experience := RemoveId(s.experience, ExperienceId, id))
    case AddEducation(e) => s.(education := s.education + [e])
    case UpdateEducation(id, q) =>
      s.(education := UpdateWhere(s.education, EducationId, id, e => MergeEducation(e, q)))
    case DeleteEducation(id) => s.(education := RemoveId(s.education, EducationId, id))
    case AddSkill(k) => s.(skills := s.skills + [k])
    case UpdateSkill(id, q) =>
      s.(skills := UpdateWhere(s.skills, SkillId, id, k => MergeSkill(k, q)))
    case DeleteSkill(id) => s.(skills := RemoveId(s.skills, SkillId, id))
    case SetFresher(b) => s.(isFresher := b)
    case LoadData(d) => d
    case ResetData => InitialState
  }

  /**
   * `UPDATE_PERSONAL_INFO` is a merge-patch: a present key takes the payload
   * value, an absent key keeps its value, and nothing outside personal info moves.
   */
  lemma UpdatePersonalInfoMerges(s: ResumeData, q: PersonalInfoPatch)
    ensures var r := Reduce(s, UpdatePersonalInfo(q));
      && (forall f :: PatchGet(q, f).Some? ==> Get(r.personalInfo, f) == PatchGet(q, f).value)
      && (forall f :: PatchGet(q, f).None? ==> Get(r.personalInfo, f) == Get(s.personalInfo, f))
      && r.experience == s.experience && r.education == s.education
      && r.skills == s.skills && r.isFresher == s.isFresher
  {
    MergeGet(s.personalInfo, q);
  }

  /** `ADD_*` appends the payload at the end of its own list and touches nothing else. */
  lemma AddAppends(s: ResumeData, e: Experience, d: Education, k: Skill)
    ensures var r := Reduce(s, AddExperience(e));
      |r.experience| == |s.experience| + 1 && r.experience[..|s.experience|] == s.experience
      && r.experience[|s.experience|] == e
      && r.personalInfo == s.personalInfo && r.education == s.education
      && r.skills == s.skills && r.isFresher == s.isFresher
    ensures var r := Reduce(s, AddEducation(d));
      |r.education| == |s.education| + 1 && r.education[..|s.education|] == s.education
      && r.education[|s.education|] == d
      && r.personalInfo == s.personalInfo && r.experience == s.experience
      && r.skills == s.skills && r.isFresher == s.isFresher
    ensures var r := Reduce(s, AddSkill(k));
      |r.skills| == |s.skills| + 1 && r.skills[..|s.skills|] == s.skills
      && r.skills[|s.skills|] == k
      && r.personalInfo == s.personalInfo && r.experience == s.experience
      && r.education == s.education && r.isFresher == s.isFresher
  {
    assert (s.experience + [e])[..|s.experience|] == s.experience;
    assert (s.education + [d])[..|s.education|] == s.education;
    assert (s.skills + [k])[..|s.skills|] == s.skills;
  }

  /**
   * `UPDATE_EXPERIENCE` keeps length and order, merges the patch into exactly
   * the records with the target id, and is a no-op for an unknown id.
   */
  lemma UpdateExperienceSpec(s: ResumeData, id: string, q: ExperiencePatch)
    ensures var r := Reduce(s, UpdateExperience(id, q));
      && |r.experience| == |s.experience|
      && (forall i :: 0 <= i < |s.experience| ==>
            r.experience[i] == if s.experience[i].id == id then MergeExperience(s.experience[i], q)
                               else s.experience[i])
      && r.personalInfo == s.personalInfo && r.education == s.education
      && r.skills == s.skills && r.isFresher == s.isFresher
    ensures (forall e <- s.experience :: e.id != id) ==> Reduce(s, UpdateExperience(id, q)) == s
  {
    UpdateWhereAt(s.experience, ExperienceId, id, e => MergeExperience(e, q));
    if forall e <- s.experience :: e.id != id {
      var r := Reduce(s, UpdateExperience(id, q));
      forall i | 0 <= i < |s.experience| ensures r.experience[i] == s.experience[i] {
        assert s.experience[i] in s.experience;
      }
      assert r.experience == s.experience;
    }
  }

  /** `UPDATE_EDUCATION`: as for experience. */
  lemma UpdateEducationSpec(s: ResumeData, id: string, q: EducationPatch)
    ensures var r := Reduce(s, UpdateEducation(id, q));
      && |r.education| == |s.education|
      && (forall i :: 0 <= i < |s.education| ==>
            r.education[i] == if s.education[i].id == id then MergeEducation(s.education[i], q)
                              else s.education[i])
      && r.personalInfo == s.personalInfo && r.experience == s.experience
      && r.skills == s.skills && r.isFresher == s.isFresher
    ensures (forall e <- s.education :: e.id != id) ==> Reduce(s, UpdateEducation(id, q)) == s
  {
    UpdateWhereAt(s.education, EducationId, id, e => MergeEducation(e, q));
    if forall e <- s.education :: e.id != id {
      var r := Reduce(s, UpdateEducation(id, q));
      forall i | 0 <= i < |s.education| ensures r.education[i] == s.education[i] {
        assert s.education[i] in s.education;
      }
      assert r.education == s.education;
    }
  }

  /** `UPDATE_SKILL`: as for experience. */
  lemma UpdateSkillSpec(s: ResumeData, id: string, q: SkillPatch)
    ensures var r := Reduce(s, UpdateSkill(id, q));
      && |r.skills| == |s.skills|
      && (forall i :: 0 <= i < |s.skills| ==>
            r.skills[i] == if s.skills[i].id == id then MergeSkill(s.skills[i], q) else s.skills[i])
      && r.personalInfo == s.personalInfo && r.experience == s.experience
      && r.education == s.education && r.isFresher == s.isFresher
    ensures (forall k <- s.skills :: k.id != id) ==> Reduce(s, UpdateSkill(id, q)) == s
  {
    UpdateWhereAt(s.skills, SkillId, id, k => MergeSkill(k, q));
    if forall k <- s.skills :: k.id != id {
      var r := Reduce(s, UpdateSkill(id, q));
      forall i | 0 <= i < |s.skills| ensures r.skills[i] == s.skills[i] {
        assert s.skills[i] in s.skills;
      }
      assert r.skills == s.skills;
    }
  }

  /**
   * `DELETE_EXPERIENCE` removes exactly the records with the target id from its
   * own list; an absent id changes nothing.
   */
  lemma DeleteExperienceRemoves(s: ResumeData, id: string)
    ensures var r := Reduce(s, DeleteExperience(id));
      && (forall e :: e in r.experience <==> e in s.experience && e.id != id)
      && ((forall e <- s.experience :: e.id != id) ==> r == s)
      && r.personalInfo == s.personalInfo && r.education == s.education
      && r.skills == s.skills && r.isFresher == s.isFresher
  {
    var kept := RemoveId(s.experience, ExperienceId, id);
    assert Reduce(s, DeleteExperience(id)) == s.(experience := kept);
    RemoveIdMembers(s.experience, ExperienceId, id);
    assert forall e :: e in kept <==> e in s.experience && ExperienceId(e) != id;
    if forall e <- s.experience :: e.id != id {
      assert forall e <- s.experience :: ExperienceId(e) != id;
      RemoveAbsentId(s.experience, ExperienceId, id);
    }
  }

  /**
   * `DELETE_EDUCATION` removes exactly the records with the target id from its
   * own list; an absent id changes nothing.
   */
  lemma DeleteEducationRemoves(s: ResumeData, id: string)
    ensures var r := Reduce(s, DeleteEducation(id));
      && (forall e :: e in r.education <==> e in s.education && e.id != id)
      && ((forall e <- s.education :: e.id != id) ==> r == s)
      && r.personalInfo == s.personalInfo && r.experience == s.experience
      && r.skills == s.skills && r.isFresher == s.isFresher
  {
    var kept := RemoveId(s.education, EducationId, id);
    assert Reduce(s, DeleteEducation(id)) == s.(education := kept);
    RemoveIdMembers(s.education, EducationId, id);
    assert forall e :: e in kept <==> e in s.education && EducationId(e) != id;
    if forall e <- s.education :: e.id != id {
      assert forall e <- s.education :: EducationId(e) != id;
      RemoveAbsentId(s.education, EducationId, id);
    }
  }

  /**
   * `DELETE_SKILL` removes exactly the records with the target id from its
   * own list; an absent id changes nothing.
   */
  lemma DeleteSkillRemoves(s: ResumeData, id: string)
    ensures var r := Reduce(s, DeleteSkill(id));
      && (forall k :: k in r.skills <==> k in s.skills && k.id != id)
      && ((forall k <- s.skills :: k.id != id) ==> r == s)
      && r.personalInfo == s.personalInfo && r.experience == s.experience
      && r.education == s.education && r.isFresher == s.isFresher
  {
    var kept := RemoveId(s.skills, SkillId, id);
    assert Reduce(s, DeleteSkill(id)) == s.(skills := kept);
    RemoveIdMembers(s.skills, SkillId, id);
    assert forall k :: k in kept <==> k in s.skills && SkillId(k) != id;
    if forall k <- s.skills :: k.id != id {
      assert forall k <- s.skills :: SkillId(k) != id;
      RemoveAbsentId(s.skills, SkillId, id);
    }
  }

  /** `SET_FRESHER` changes the flag only; in particular the experience list stays. */
  lemma SetFresherOnlyFlag(s: ResumeData, b: bool)
    ensures Reduce(s, SetFresher(b)) == s.(isFresher := b)
    ensures Reduce(s, SetFresher(b)).experience == s.experience
  {
  }

  /** `LOAD_DATA` replaces the document; `RESET_DATA` returns to the empty one. */
  lemma LoadAndReset(s: ResumeData, d: ResumeData)
    ensures Reduce(s, LoadData(d)) == d
    ensures var r := Reduce(s, ResetData);
      r.experience == [] && r.education == [] && r.skills == [] && !r.isFresher
      && forall f :: Get(r.personalInfo, f) == ""
  {
  }

  // ------------------------------------------------------------ id counter

  /** The floor of the id counter, above the ids of the built-in sample data. */
  const IdFloor: nat := 200

  /** `Math.max(floor, ...xs.map(key))`. */
  function MaxKey<T>(xs: seq<T>, key: T -> int, floor: int): (m: int)
    ensures m >= floor
    ensures forall x <- xs :: key(x) <= m
    ensures m == floor || exists x <- xs :: key(x) == m
    decreases |xs|
  {
    if xs == [] then floor
    else
      var m := MaxKey(xs[1..], key, floor);
      assert forall x <- xs :: x == xs[0] || x in xs[1..];
      if key(xs[0]) > m then key(xs[0]) else m
  }

  /** `parseInt(id) || 0` of a record. */
  function ExperienceIdValue(e: Experience): int { IdValue(e.id) }
  function EducationIdValue(e: Education): int { IdValue(e.id) }
  function SkillIdValue(k: Skill): int { IdValue(k.id) }

  /** The counter after loading `d`: the largest numeric id of any record, at least 200, plus one. */
  function SeedCounter(d: ResumeData): nat {
    MaxKey(d.experience, ExperienceIdValue,
      MaxKey(d.education, EducationIdValue,
        MaxKey(d.skills, SkillIdValue, IdFloor))) + 1
  }

  /** Every stored id reads as a number below `c`. */
  predicate IdsBelow(d: ResumeData, c: int) {
    && (forall e <- d.experience :: IdValue(e.id) < c)
    && (forall e <- d.education :: IdValue(e.id) < c)
    && (forall k <- d.skills :: IdValue(k.id) < c)
  }

  /** No record of any list carries `id`. */
  predicate IdUnused(d: ResumeData, id: string) {
    && (forall e <- d.experience :: e.id != id)
    && (forall e <- d.education :: e.id != id)
    && (forall k <- d.skills :: k.id != id)
  }

  /** Under `IdsBelow(d, c)` the decimal string of `c` is not a stored id. */
  lemma CounterIdUnused(d: ResumeData, c: nat)
    requires IdsBelow(d, c)
    ensures IdUnused(d, NatToString(c))
  {
    ParseNatToString(c);
  }

  /**
   * After a load the counter is at least 201 and above every numerically
   * parsed stored id, so the first id it hands out is carried by no stored record.
   */
  lemma SeedCounterFresh(d: ResumeData)
    ensures SeedCounter(d) >= IdFloor + 1
    ensures IdsBelow(d, SeedCounter(d))
    ensures IdUnused(d, NatToString(SeedCounter(d)))
  {
    CounterIdUnused(d, SeedCounter(d));
  }

  /**
   * An add helper's step: the reducer appends the record stamped with counter
   * `c`; when `c` is ahead of every stored id, that id is unused and `c + 1` is ahead afterwards.
   */
  lemma AddExperienceStep(d: ResumeData, c: nat, f: ExperienceFields)
    ensures var rec := ExperienceWithId(f, NatToString(c));
      Reduce(d, AddExperience(rec)) == d.(experience := d.experience + [rec])
    ensures IdsBelow(d, c) ==>
      IdUnused(d, NatToString(c)) && IdsBelow(d.(experience := d.experience + [ExperienceWithId(f, NatToString(c))]), c + 1)
  {
    AddExperienceAppends(d, ExperienceWithId(f, NatToString(c)));
    if IdsBelow(d, c) {
      CounterIdUnused(d, c);
      ParseNatToString(c);
      AheadAfterAddExperience(d, c, ExperienceWithId(f, NatToString(c)));
    }
  }

  lemma AddExperienceAppends(d: ResumeData, rec: Experience)
    ensures Reduce(d, AddExperience(rec)) == d.(experience := d.experience + [rec])
  {
  }

  lemma AheadAfterAddExperience(d: ResumeData, c: nat, rec: Experience)
    requires IdsBelow(d, c) && IdValue(rec.id) == c
    ensures IdsBelow(d.(experience := d.experience + [rec]), c + 1)
  {
    var d' := d.(experience := d.experience + [rec]);
    assert d'.education == d.education && d'.skills == d.skills;
    forall e <- d'.experience
      ensures IdValue(e.id) < c + 1
    {
      if e != rec { assert e in d.experience; }
    }
  }

  lemma AddEducationStep(d: ResumeData, c: nat, f: EducationFields)
    ensures var rec := EducationWithId(f, NatToString(c));
      Reduce(d, AddEducation(rec)) == d.(education := d.education + [rec])
    ensures IdsBelow(d, c) ==>
      IdUnused(d, NatToString(c)) && IdsBelow(d.(education := d.education + [EducationWithId(f, NatToString(c))]), c + 1)
  {
    AddEducationAppends(d, EducationWithId(f, NatToString(c)));
    if IdsBelow(d, c) {
      CounterIdUnused(d, c);
      ParseNatToString(c);
      AheadAfterAddEducation(d, c, EducationWithId(f, NatToString(c)));
    }
  }

  lemma AddEducationAppends(d: ResumeData, rec: Education)
    ensures Reduce(d, AddEducation(rec)) == d.(education := d.education + [rec])
  {
  }

  lemma AheadAfterAddEducation(d: ResumeData, c: nat, rec: Education)
    requires IdsBelow(d, c) && IdValue(rec.id) == c
    ensures IdsBelow(d.(education := d.education + [rec]), c + 1)
  {
    var d' := d.(education := d.education + [rec]);
    assert d'.experience == d.experience && d'.skills == d.skills;
    forall e <- d'.education
      ensures IdValue(e.id) < c + 1
    {
      if e != rec { assert e in d.education; }
    }
  }

  lemma AddSkillStep(d: ResumeData, c: nat, f: SkillFields)
    ensures var rec := SkillWithId(f, NatToString(c));
      Reduce(d, AddSkill(rec)) == d.(skills := d.skills + [rec])
    ensures IdsBelow(d, c) ==>
      IdUnused(d, NatToString(c)) && IdsBelow(d.(skills := d.skills + [SkillWithId(f, NatToString(c))]), c + 1)
  {
    AddSkillAppends(d, SkillWithId(f, NatToString(c)));
    if IdsBelow(d, c) {
      CounterIdUnused(d, c);
      ParseNatToString(c);
      AheadAfterAddSkill(d, c, SkillWithId(f, NatToString(c)));
    }
  }

  lemma AddSkillAppends(d: ResumeData, rec: Skill)
    ensures Reduce(d, AddSkill(rec)) == d.(skills := d.skills + [rec])
  {
  }

  lemma AheadAfterAddSkill(d: ResumeData, c: nat, rec: Skill)
    requires IdsBelow(d, c) && IdValue(rec.id) == c
    ensures IdsBelow(d.(skills := d.skills + [rec]), c + 1)
  {
    var d' := d.(skills := d.skills + [rec]);
    assert d'.experience == d.experience && d'.education == d.education;
    forall k <- d'.skills
      ensures IdValue(k.id) < c + 1
    {
      if k != rec { assert k in d.skills; }
    }
  }

  /** The records `n` calls of an add helper append when all of them read the counter value `c`. */
  function StaleBatch<F, R>(batch: seq<F>, stamp: (F, string) -> R, c: nat): seq<R> {
    seq(|batch|, i requires 0 <= i < |batch| => stamp(batch[i], NatToString(c)))
  }

  /** The records appended when each add reads the counter after the previous increment. */
  function SequentialBatch<F, R>(batch: seq<F>, stamp: (F, string) -> R, c: nat): seq<R> {
    seq(|batch|, i requires 0 <= i < |batch| => stamp(batch[i], NatToString(c + i)))
  }

  /** Filtering out the id every element carries leaves nothing. */
  lemma {:induction false} RemoveAllCarrying<T>(xs: seq<T>, idOf: T -> string, id: string)
    requires forall x <- xs :: idOf(x) == id
    ensures RemoveId(xs, idOf, id) == []
    decreases |xs|
  {
    if xs != [] {
      assert xs[0] in xs;
      assert forall x <- xs[1..] :: x in xs;
      RemoveAllCarrying(xs[1..], idOf, id);
    }
  }

  /**
   * As written, a save of several pending entries in one click stamps all of
   * them with one id, so deleting any one of them afterwards deletes them all.
   */
  lemma StaleBatchSharesId(batch: seq<ExperienceFields>, c: nat)
    ensures var r := StaleBatch(batch, ExperienceWithId, c);
      && (forall i, j :: 0 <= i < j < |r| ==> r[i].id == r[j].id)
      && (|r| > 0 ==> RemoveId(r, ExperienceId, r[0].id) == [])
  {
    var r := StaleBatch(batch, ExperienceWithId, c);
    if |r| > 0 {
      forall x | x in r ensures ExperienceId(x) == r[0].id {
        var i :| 0 <= i < |r| && r[i] == x;
      }
      RemoveAllCarrying(r, ExperienceId, r[0].id);
    }
  }

  /** With the counter read afresh for every add, the ids of a batch are pairwise distinct. */
  lemma SequentialBatchDistinct<F, R>(batch: seq<F>, stamp: (F, string) -> R, idOf: R -> string, c: nat)
    requires forall f, id :: idOf(stamp(f, id)) == id
    ensures var r := SequentialBatch(batch, stamp, c);
      forall i, j :: 0 <= i < j < |r| ==> idOf(r[i]) != idOf(r[j])
  {
    var r := SequentialBatch(batch, stamp, c);
    forall i, j | 0 <= i < j < |r| ensures idOf(r[i]) != idOf(r[j]) {
      if idOf(r[i]) == idOf(r[j]) {
        NatToStringInjective(c + i, c + j);
      }
    }
  }

  // -------------------------------------------------------------- provider

  /** What the browser storage holds on mount, already parsed. */
  datatype Stored = NothingStored | Unreadable | Saved(data: ResumeData)

  /** `ResumeProvider`: the document and the id counter, and the helpers that change them. */
  class ResumeProvider {
    var state: ResumeData
    var idCounter: nat

    /** Every stored record's numeric id is below the counter. */
    predicate CounterAhead()
      reads this
    {
      IdsBelow(state, idCounter)
    }

    constructor ()
      ensures state == InitialState && idCounter == IdFloor
      ensures CounterAhead()
    {
      state := InitialState;
      idCounter := IdFloor;
    }

    /**
     * The mount effect: a parsed saved document replaces the state and seeds
     * the counter; nothing stored or unreadable data keep the initial state.
     */
    method Mount(saved: Stored)
      modifies this
      ensures saved.Saved? ==> state == Reduce(old(state), Action.LoadData(saved.data))
      ensures saved.Saved? ==> idCounter == SeedCounter(saved.data) && idCounter >= IdFloor + 1
      ensures !saved.Saved? ==> state == old(state) && idCounter == old(idCounter)
      ensures saved.Saved? || old(CounterAhead()) ==> CounterAhead()
    {
      if saved.Saved? {
        assert Reduce(state, Action.LoadData(saved.data)) == saved.data;
        state := saved.data;
        SeedCounterFresh(saved.data);
        idCounter := SeedCounter(saved.data);
      }
    }

    /** `dispatch`: one reducer step; the counter is untouched. */
    method Dispatch(a: Action)
      modifies this
      ensures state == Reduce(old(state), a) && idCounter == old(idCounter)
    {
      state := Reduce(state, a);
    }

    method UpdatePersonalInfo(q: PersonalInfoPatch)
      modifies this
      ensures state == Reduce(old(state), Action.UpdatePersonalInfo(q)) && idCounter == old(idCounter)
      ensures old(CounterAhead()) ==> CounterAhead()
    {
      var next := state.(personalInfo := MergePersonalInfo(state.personalInfo, q));
      assert Reduce(state, Action.UpdatePersonalInfo(q)) == next;
      state := next;
    }

    /**
     * `addExperience`: the new record gets the counter's decimal string as its
     * id and the counter goes up by one; the id is carried by no stored record.
     */
    method AddExperience(f: ExperienceFields)
      modifies this
      ensures state == Reduce(old(state), Action.AddExperience(ExperienceWithId(f, NatToString(old(idCounter)))))
      ensures idCounter == old(idCounter) + 1
      ensures old(CounterAhead()) ==> CounterAhead() && IdUnused(old(state), NatToString(old(idCounter)))
    {
      AddExperienceStep(state, idCounter, f);
      state := state.(experience := state.experience + [ExperienceWithId(f, NatToString(idCounter))]);
      idCounter := idCounter + 1;
    }

    method AddEducation(f: EducationFields)
      modifies this
      ensures state == Reduce(old(state), Action.AddEducation(EducationWithId(f, NatToString(old(idCounter)))))
      ensures idCounter == old(idCounter) + 1
      ensures old(CounterAhead()) ==> CounterAhead() && IdUnused(old(state), NatToString(old(idCounter)))
    {
      AddEducationStep(state, idCounter, f);
      state := state.(education := state.education + [EducationWithId(f, NatToString(idCounter))]);
      idCounter := idCounter + 1;
    }

    method AddSkill(f: SkillFields)
      modifies this
      ensures state == Reduce(old(state), Action.AddSkill(SkillWithId(f, NatToString(old(idCounter)))))
      ensures idCounter == old(idCounter) + 1
      ensures old(CounterAhead()) ==> CounterAhead() && IdUnused(old(state), NatToString(old(idCounter)))
    {
      AddSkillStep(state, idCounter, f);
      state := state.(skills := state.skills + [SkillWithId(f, NatToString(idCounter))]);
      idCounter := idCounter + 1;
    }

    /**
     * `n` calls of `addExperience` inside one event handler: every call reads
     * the counter value captured at render time, while the functional
     * increments all apply, so the records share one id and the counter ends
     * `n` higher.
     */
    method AddExperiences(batch: seq<ExperienceFields>)
      modifies this
      ensures state == old(state).(experience := old(state).experience
                                     + StaleBatch(batch, ExperienceWithId, old(idCounter)))
      ensures idCounter == old(idCounter) + |batch|
    {
      var captured := idCounter;
      var i := 0;
      while i < |batch|
        invariant 0 <= i <= |batch|
        invariant idCounter == captured + i
        invariant state == old(state).(experience := old(state).experience
                                         + StaleBatch(batch[..i], ExperienceWithId, captured))
      {
        state := Reduce(state, Action.AddExperience(ExperienceWithId(batch[i], NatToString(captured))));
        idCounter := idCounter + 1;
        assert StaleBatch(batch[..i + 1], ExperienceWithId, captured)
          == StaleBatch(batch[..i], ExperienceWithId, captured) + [ExperienceWithId(batch[i], NatToString(captured))];
        i := i + 1;
      }
      assert batch[..i] == batch;
    }

    /** `n` calls of `addEducation` inside one event handler; see `AddExperiences`. */
    method AddEducations(batch: seq<EducationFields>)
      modifies this
      ensures state == old(state).(education := old(state).education
                                     + StaleBatch(batch, EducationWithId, old(idCounter)))
      ensures idCounter == old(idCounter) + |batch|
    {
      var captured := idCounter;
      var i := 0;
      while i < |batch|
        invariant 0 <= i <= |batch|
        invariant idCounter == captured + i
        invariant state == old(state).(education := old(state).education
                                         + StaleBatch(batch[..i], EducationWithId, captured))
      {
        state := Reduce(state, Action.AddEducation(EducationWithId(batch[i], NatToString(captured))));
        idCounter := idCounter + 1;
        assert StaleBatch(batch[..i + 1], EducationWithId, captured)
          == StaleBatch(batch[..i], EducationWithId, captured) + [EducationWithId(batch[i], NatToString(captured))];
        i := i + 1;
      }
      assert batch[..i] == batch;
    }

    /** `n` calls of `addSkill` inside one event handler; see `AddExperiences`. */
    method AddSkills(batch: seq<SkillFields>)
      modifies this
      ensures state == old(state).(skills := old(state).skills
                                     + StaleBatch(batch, SkillWithId, old(idCounter)))
      ensures idCounter == old(idCounter) + |batch|
    {
      var captured := idCounter;
      var i := 0;
      while i < |batch|
        invariant 0 <= i <= |batch|
        invariant idCounter == captured + i
        invariant state == old(state).(skills := old(state).skills
                                         + StaleBatch(batch[..i], SkillWithId, captured))
      {
        state := Reduce(state, Action.AddSkill(SkillWithId(batch[i], NatToString(captured))));
        idCounter := idCounter + 1;
        assert StaleBatch(batch[..i + 1], SkillWithId, captured)
          == StaleBatch(batch[..i], SkillWithId, captured) + [SkillWithId(batch[i], NatToString(captured))];
        i := i + 1;
      }
      assert batch[..i] == batch;
    }

    /**
     * The intended batch save: each add reads the counter after the previous
     * increment, so the new ids are pairwise distinct and unused.
     */
    method AddSkillsSequentially(batch: seq<SkillFields>)
      modifies this
      ensures state == old(state).(skills := old(state).skills
                                     + SequentialBatch(batch, SkillWithId, old(idCounter)))
      ensures idCounter == old(idCounter) + |batch|
    {
      var i := 0;
      while i < |batch|
        invariant 0 <= i <= |batch|
        invariant idCounter == old(idCounter) + i
        invariant state == old(state).(skills := old(state).skills
                                         + SequentialBatch(batch[..i], SkillWithId, old(idCounter)))
      {
        state := Reduce(state, Action.AddSkill(SkillWithId(batch[i], NatToString(idCounter))));
        assert SequentialBatch(batch[..i + 1], SkillWithId, old(idCounter))
          == SequentialBatch(batch[..i], SkillWithId, old(idCounter))
             + [SkillWithId(batch[i], NatToString(old(idCounter) + i))];
        idCounter := idCounter + 1;
        i := i + 1;
      }
      assert batch[..i] == batch;
    }

    method UpdateExperience(id: string, q: ExperiencePatch)
      modifies this
      ensures state == Reduce(old(state), Action.UpdateExperience(id, q)) && idCounter == old(idCounter)
    {
      state := Reduce(state, Action.UpdateExperience(id, q));
    }

    method DeleteExperience(id: string)
      modifies this
      ensures state == Reduce(old(state), Action.DeleteExperience(id)) && idCounter == old(idCounter)
    {
      state := Reduce(state, Action.DeleteExperience(id));
    }

    method UpdateEducation(id: string, q: EducationPatch)
      modifies this
      ensures state == Reduce(old(state), Action.UpdateEducation(id, q)) && idCounter == old(idCounter)
    {
      state := Reduce(state, Action.UpdateEducation(id, q));
    }

    method DeleteEducation(id: string)
      modifies this
      ensures state == Reduce(old(state), Action.DeleteEducation(id)) && idCounter == old(idCounter)
    {
      state := Reduce(state, Action.DeleteEducation(id));
    }

    method UpdateSkill(id: string, q: SkillPatch)
      modifies this
      ensures state == Reduce(old(state), Action.UpdateSkill(id, q)) && idCounter == old(idCounter)
    {
      state := Reduce(state, Action.UpdateSkill(id, q));
    }

    method DeleteSkill(id: string)
      modifies this
      ensures state == Reduce(old(state), Action.DeleteSkill(id)) && idCounter == old(idCounter)
    {
      state := Reduce(state, Action.DeleteSkill(id));
    }

    method SetFresher(b: bool)
      modifies this
      ensures state == old(state).(isFresher := b) && idCounter == old(idCounter)
      ensures old(CounterAhead()) ==> CounterAhead()
    {
      assert Reduce(state, Action.SetFresher(b)) == state.(isFresher := b);
      state := state.(isFresher := b);
    }

    /** `resetData`: the empty document and the counter back at its floor. */
    method ResetData()
      modifies this
      ensures state == InitialState && idCounter == IdFloor
      ensures CounterAhead()
    {
      state := Reduce(state, Action.ResetData);
      idCounter := IdFloor;
    }
  }
}
