/**
 * The application's route constants and the builder of the resume page's
 * address, which carries the wizard section as a query parameter.
 */
module Routes {
  import opened Wrappers

  const Home := "/"
  const Resume := "/resume"
  const Templates := "/templates"
  const Examples := "/examples"
  const Pricing := "/pricing"
  const Settings := "/settings"

  /** The five wizard sections, as they appear in the address. */
  const PersonalInfoSection := "personal-info"
  const ExperienceSection := "experience"
  const EducationSection := "education"
  const SkillsSection := "skills"
  const PreviewSection := "preview"

  const Sections: seq<string> := [PersonalInfoSection, ExperienceSection, EducationSection, SkillsSection, PreviewSection]

  /** The query prefix placed before a section name. */
  const SectionQuery := "?section="

  /** JavaScript truthiness of an optional string: present and not empty. */
  predicate Truthy(o: Option<string>) {
    o.Some? && o.value != ""
  }

  /**
   * `getResumeUrl(section?)`: a present, non-empty section is appended as
   * the `section` parameter; an absent or empty one (both falsy) gives the
   * bare resume address.
   */
  function GetResumeUrl(section: Option<string>): (url: string)
    ensures Resume <= url
    ensures url == Resume <==> !Truthy(section)
  {
    if Truthy(section) then Resume + SectionQuery + section.value else Resume
  }

  /** Reads the section back from a resume address: the text after the query prefix, if any. */
  function SectionOf(url: string): (r: Option<string>)
    ensures r.Some? ==> url == Resume + SectionQuery + r.value
  {
    var p := Resume + SectionQuery;
    if |url| > |p| && url[..|p|] == p then Some(url[|p|..]) else None
  }

  /** Every non-empty section survives the trip into the address and back; no section gives the bare address. */
  lemma SectionRoundTrip(section: Option<string>)
    ensures SectionOf(GetResumeUrl(section)) == if section == Some("") then None else section
  {
    var p := Resume + SectionQuery;
    if Truthy(section) {
      var url := GetResumeUrl(section);
      assert url[..|p|] == p;
      assert url[|p|..] == section.value;
    }
  }

  /** Distinct non-empty sections give distinct addresses. */
  lemma GetResumeUrlInjective(a: string, b: string)
    requires a != "" && b != ""
    ensures GetResumeUrl(Some(a)) == GetResumeUrl(Some(b)) <==> a == b
  {
    if GetResumeUrl(Some(a)) == GetResumeUrl(Some(b)) {
      SectionRoundTrip(Some(a));
      SectionRoundTrip(Some(b));
    }
  }

  /** The five section names are pairwise different and none is empty. */
  lemma SectionsDistinct()
    ensures forall i, j :: 0 <= i < j < |Sections| ==> Sections[i] != Sections[j]
    ensures forall i :: 0 <= i < |Sections| ==> Sections[i] != ""
  {
  }
}
