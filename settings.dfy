/**
 * The résumé settings page: five text fields edited one at a time, loaded
 * from and saved to browser storage, and a formatted résumé built from the
 * first four under fixed headings.
 */
module Settings {
  import opened Wrappers
  import opened Text

  datatype ResumeData = ResumeData(
    aboutMe: string,
    professionalExperience: string,
    projects: string,
    skills: string,
    additionalInstructions: string)

  const EmptyResume: ResumeData := ResumeData("", "", "", "", "")

  /** The keys of `ResumeData`. */
  datatype ResumeField = AboutMe | ProfessionalExperience | Projects | Skills | AdditionalInstructions

  function Field(d: ResumeData, f: ResumeField): string {
    match f
    case AboutMe => d.aboutMe
    case ProfessionalExperience => d.professionalExperience
    case Projects => d.projects
    case Skills => d.skills
    case AdditionalInstructions => d.additionalInstructions
  }

  /** `{ ...d, [f]: value }`: that field set, the other four untouched. */
  function WithField(d: ResumeData, f: ResumeField, value: string): (r: ResumeData)
    ensures Field(r, f) == value
    ensures forall g :: g != f ==> Field(r, g) == Field(d, g)
  {
    match f
    case AboutMe => d.(aboutMe := value)
    case ProfessionalExperience => d.(professionalExperience := value)
    case Projects => d.(projects := value)
    case Skills => d.(skills := value)
    case AdditionalInstructions => d.(additionalInstructions := value)
  }

  /** The parsed "resumeData" entry: each field present or absent. */
  datatype SavedResume = SavedResume(
    aboutMe: Option<string>,
    professionalExperience: Option<string>,
    projects: Option<string>,
    skills: Option<string>,
    additionalInstructions: Option<string>)

  function SavedField(saved: SavedResume, f: ResumeField): Option<string> {
    match f
    case AboutMe => saved.aboutMe
    case ProfessionalExperience => saved.professionalExperience
    case Projects => saved.projects
    case Skills => saved.skills
    case AdditionalInstructions => saved.additionalInstructions
  }

  /** `{ ...prev, ...saved }`: the saved fields replace, the absent ones keep
      their value. */
  function Merged(prev: ResumeData, saved: SavedResume): (r: ResumeData)
    ensures forall f :: Field(r, f) == SavedField(saved, f).GetOr(Field(prev, f))
  {
    ResumeData(
      saved.aboutMe.GetOr(prev.aboutMe),
      saved.professionalExperience.GetOr(prev.professionalExperience),
      saved.projects.GetOr(prev.projects),
      saved.skills.GetOr(prev.skills),
      saved.additionalInstructions.GetOr(prev.additionalInstructions))
  }

  /** The load on mount: the saved record (when the entry is non-empty) is
      merged in, then non-empty saved "applyInstructions" override the
      additional instructions. */
  function Loaded(prev: ResumeData, saved: Option<SavedResume>, savedInstructions: Option<string>)
    : (r: ResumeData)
    ensures savedInstructions.Some? && savedInstructions.value != "" ==>
              r.additionalInstructions == savedInstructions.value
    ensures forall f :: f != AdditionalInstructions ==>
              Field(r, f) == if saved.Some? then SavedField(saved.value, f).GetOr(Field(prev, f)) else Field(prev, f)
    ensures !(savedInstructions.Some? && savedInstructions.value != "") ==>
              r.additionalInstructions ==
                if saved.Some? then saved.value.additionalInstructions.GetOr(prev.additionalInstructions)
                else prev.additionalInstructions
    ensures saved.None? && (savedInstructions.None? || savedInstructions.value == "") ==> r == prev
  {
    var merged := if saved.Some? then Merged(prev, saved.value) else prev;
    if savedInstructions.Some? && savedInstructions.value != "" then
      merged.(additionalInstructions := savedInstructions.value)
    else merged
  }

  const AboutMeHeading: string := "About Me:"

  /** The preview shown under the form. */
  function Preview(d: ResumeData): (r: string)
    ensures |r| > |AboutMeHeading| && r[..|AboutMeHeading|] == AboutMeHeading && r[0] == 'A'
  {
    AboutMeHeading + ("\n" + d.aboutMe
    + "\n\nProfessional Experience:\n" + d.professionalExperience
    + "\n\nProjects:\n" + d.projects
    + "\n\nSkills:\n" + d.skills)
  }

  /** The résumé text saved: the preview wrapped in a leading newline and a
      trailing newline plus indentation, then trimmed. */
  function FormattedResume(d: ResumeData): string {
    Trim("\n" + Preview(d) + "\n      ")
  }

  /** The saved résumé is the preview without its trailing whitespace. */
  lemma FormattedIsTrimmedPreview(d: ResumeData)
    ensures FormattedResume(d) == TrimEnd(Preview(d))
  {
    var p := Preview(d);
    var w := "\n      ";
    var s := "\n" + p + w;
    assert s[1..] == p + w;
    assert (p + w)[0] == p[0];
    assert TrimStart(s) == p + w;
    TrimEndDropsWhitespace(p, w);
  }

  /** The saved résumé always opens with its first heading. */
  lemma FormattedStartsWithAboutMe(d: ResumeData)
    ensures StartsWith(FormattedResume(d), AboutMeHeading)
  {
    FormattedIsTrimmedPreview(d);
    var p := Preview(d);
    assert p[|AboutMeHeading| - 1] == ':';
    TrimEndKeepsUpTo(p, |AboutMeHeading| - 1);
  }

  /** The additional instructions play no part in the saved résumé. */
  lemma FormattedIgnoresInstructions(d: ResumeData, instructions: string)
    ensures FormattedResume(d.(additionalInstructions := instructions)) == FormattedResume(d)
  {
  }

  /** The three storage entries a save writes. */
  datatype Stored = Stored(resumeContent: string, resumeData: SavedResume, applyInstructions: string)

  function Saved(d: ResumeData): (s: Stored)
    ensures s.resumeContent == FormattedResume(d) && s.applyInstructions == d.additionalInstructions
    ensures forall f :: SavedField(s.resumeData, f) == Some(Field(d, f))
  {
    Stored(
      FormattedResume(d),
      SavedResume(Some(d.aboutMe), Some(d.professionalExperience), Some(d.projects), Some(d.skills),
                  Some(d.additionalInstructions)),
      d.additionalInstructions)
  }

  /** Loading what was saved gives the saved record back, whatever the page
      held before. */
  lemma LoadAfterSave(prev: ResumeData, d: ResumeData)
    ensures var s := Saved(d);
            Loaded(prev, Some(s.resumeData), Some(s.applyInstructions)) == d
  {
    var s := Saved(d);
    var r := Loaded(prev, Some(s.resumeData), Some(s.applyInstructions));
    assert forall f :: Field(r, f) == Field(d, f);
    assert Field(r, AboutMe) == Field(d, AboutMe) && Field(r, Skills) == Field(d, Skills);
    assert Field(r, ProfessionalExperience) == Field(d, ProfessionalExperience);
    assert Field(r, Projects) == Field(d, Projects);
  }

  /** The page's state. */
  class SettingsPage {
    var resumeData: ResumeData
    var isSaving: bool

    constructor()
      ensures resumeData == EmptyResume && !isSaving
    {
      resumeData, isSaving := EmptyResume, false;
    }

    /** The mount effect: two successive updates of the record. */
    method Load(saved: Option<SavedResume>, savedInstructions: Option<string>)
      modifies this
      ensures resumeData == Loaded(old(resumeData), saved, savedInstructions)
      ensures isSaving == old(isSaving)
    {
      if saved.Some? {
        resumeData := Merged(resumeData, saved.value);
      }
      if savedInstructions.Some? && savedInstructions.value != "" {
        resumeData := resumeData.(additionalInstructions := savedInstructions.value);
      }
    }

    /** `handleInputChange` */
    method HandleInputChange(field: ResumeField, value: string)
      modifies this
      ensures resumeData == WithField(old(resumeData), field, value)
      ensures isSaving == old(isSaving)
    {
      resumeData := WithField(resumeData, field, value);
    }

    /** `handleSave`: the entries written; the record is kept and the
        saving flag ends off. */
    method Save() returns (stored: Stored)
      modifies this
      ensures stored == Saved(resumeData)
      ensures resumeData == old(resumeData) && !isSaving
    {
      isSaving := true;
      var formatted := FormattedResume(resumeData);
      stored := Stored(formatted,
                       SavedResume(Some(resumeData.aboutMe), Some(resumeData.professionalExperience),
                                   Some(resumeData.projects), Some(resumeData.skills),
                                   Some(resumeData.additionalInstructions)),
                       resumeData.additionalInstructions);
      isSaving := false;
    }
  }
}
