/** `JobDetailsForm`: the declared rules of the job-details form and the `form_data`
    record the request handler builds from a form that passed them.

    A field value is `None` when the field was not submitted. `DataRequired` fails on a
    missing or whitespace-only value and stops that field's other checks; `Optional`
    makes a missing or whitespace-only value pass and skips the other checks, including
    the choice check of the select field. */
module JobDetails {
  import opened Wrappers
  import opened CharClasses

  datatype FormInput = FormInput(
    jobTitle: Option<string>,
    companyName: Option<string>,
    hirerName: Option<string>,
    hirerGender: Option<string>,
    jobDescription: Option<string>,
    companyOverview: Option<string>,
    relevantExperience: Option<string>)

  datatype Field =
    JobTitle | CompanyName | HirerName | HirerGender | JobDescription | CompanyOverview |
    RelevantExperience

  datatype FieldError =
    | Required
    | BadLength(min: nat, max: nat)
    | InvalidCharacters
    | NotAValidChoice
    | InvalidHirerName

  /** The `form_data` dictionary handed to the document generator. */
  datatype FormData = FormData(
    jobTitle: string,
    companyName: string,
    hirerName: string,
    hirerGender: string,
    jobDescription: string,
    companyOverview: string,
    relevantExperience: string)

  const GenderChoices: seq<string> := ["unknown", "male", "female"]
  const DefaultGender: string := "unknown"

  /** `DataRequired` passes. */
  predicate Supplied(cls: Classes, v: Option<string>) {
    v.Some? && !cls.Blank(v.value)
  }

  /** `Optional` stops the chain: nothing, or only whitespace, was entered. */
  predicate LeftEmpty(cls: Classes, v: Option<string>) {
    v.None? || cls.Blank(v.value)
  }

  /** `re.search(r'[<>{}]', s)` finds a match. */
  predicate HasBraceOrAngle(s: string) {
    exists i | 0 <= i < |s| :: s[i] == '<' || s[i] == '>' || s[i] == '{' || s[i] == '}'
  }

  /** A character `^[A-Za-z\s'-]+$` accepts. */
  predicate HirerNameChar(cls: Classes, c: char) {
    IsAsciiLetter(c) || cls.space(c) || c == '\'' || c == '-'
  }

  /** `DataRequired()`, then `Length(min, max)`, then, when `screened`, the inline
      `[<>{}]` check; a failed `Length` does not stop the inline check. */
  function RequiredTextErrors(cls: Classes, v: Option<string>, min: nat, max: nat,
                              screened: bool): (r: seq<FieldError>)
    ensures r == [] <==>
      Supplied(cls, v) && min <= |v.value| <= max && !(screened && HasBraceOrAngle(v.value))
    ensures !Supplied(cls, v) ==> r == [Required]
    ensures Supplied(cls, v) ==> Required !in r
  {
    if !Supplied(cls, v) then [Required]
    else
      var s := v.value;
      (if min <= |s| <= max then [] else [BadLength(min, max)]) +
      (if screened && HasBraceOrAngle(s) then [InvalidCharacters] else [])
  }

  function HirerNameErrors(cls: Classes, v: Option<string>): (r: seq<FieldError>)
    ensures r == [] <==>
      LeftEmpty(cls, v) || forall i :: 0 <= i < |v.value| ==> HirerNameChar(cls, v.value[i])
  {
    if LeftEmpty(cls, v) then []
    else if forall i :: 0 <= i < |v.value| ==> HirerNameChar(cls, v.value[i]) then []
    else [InvalidHirerName]
  }

  function HirerGenderErrors(cls: Classes, v: Option<string>): (r: seq<FieldError>)
    ensures r == [] <==> LeftEmpty(cls, v) || v.value in GenderChoices
  {
    if LeftEmpty(cls, v) || v.value in GenderChoices then [] else [NotAValidChoice]
  }

  /** The errors `form.validate()` records for one field. */
  function FieldErrors(cls: Classes, f: FormInput, field: Field): seq<FieldError> {
    match field
    case JobTitle => RequiredTextErrors(cls, f.jobTitle, 3, 100, true)
    case CompanyName => RequiredTextErrors(cls, f.companyName, 2, 100, true)
    case HirerName => HirerNameErrors(cls, f.hirerName)
    case HirerGender => HirerGenderErrors(cls, f.hirerGender)
    case JobDescription => RequiredTextErrors(cls, f.jobDescription, 100, 5000, false)
    case CompanyOverview => RequiredTextErrors(cls, f.companyOverview, 50, 2000, false)
    case RelevantExperience => []
  }

  /** `form.validate()` returns true. */
  predicate FormValid(cls: Classes, f: FormInput) {
    forall field :: FieldErrors(cls, f, field) == []
  }

  /** The form's acceptance rule, field by field. */
  predicate Acceptable(cls: Classes, f: FormInput) {
    && Supplied(cls, f.jobTitle) && 3 <= |f.jobTitle.value| <= 100
    && !HasBraceOrAngle(f.jobTitle.value)
    && Supplied(cls, f.companyName) && 2 <= |f.companyName.value| <= 100
    && !HasBraceOrAngle(f.companyName.value)
    && Supplied(cls, f.jobDescription) && 100 <= |f.jobDescription.value| <= 5000
    && Supplied(cls, f.companyOverview) && 50 <= |f.companyOverview.value| <= 2000
    && (LeftEmpty(cls, f.hirerName) ||
        forall i :: 0 <= i < |f.hirerName.value| ==> HirerNameChar(cls, f.hirerName.value[i]))
    && (LeftEmpty(cls, f.hirerGender) || f.hirerGender.value in GenderChoices)
  }

  lemma FormValidIff(cls: Classes, f: FormInput)
    ensures FormValid(cls, f) <==> Acceptable(cls, f)
  {
    if Acceptable(cls, f) {
      forall field ensures FieldErrors(cls, f, field) == [] {
      }
    }
    if FormValid(cls, f) {
      assert FieldErrors(cls, f, JobTitle) == [];
      assert FieldErrors(cls, f, CompanyName) == [];
      assert FieldErrors(cls, f, JobDescription) == [];
      assert FieldErrors(cls, f, CompanyOverview) == [];
      assert FieldErrors(cls, f, HirerName) == [];
      assert FieldErrors(cls, f, HirerGender) == [];
    }
  }

  /** Leaving the hirer name, the hirer gender and the relevant experience out never
      fails the form by itself: only the four required fields decide. */
  lemma OptionalFieldsMayBeOmitted(cls: Classes, f: FormInput)
    ensures FormValid(cls, f.(hirerName := None, hirerGender := None, relevantExperience := None))
      <==>
      (&& RequiredTextErrors(cls, f.jobTitle, 3, 100, true) == []
       && RequiredTextErrors(cls, f.companyName, 2, 100, true) == []
       && RequiredTextErrors(cls, f.jobDescription, 100, 5000, false) == []
       && RequiredTextErrors(cls, f.companyOverview, 50, 2000, false) == [])
  {
    var g := f.(hirerName := None, hirerGender := None, relevantExperience := None);
    FormValidIff(cls, g);
  }

  /** The `form_data` record of a valid form: missing optional text becomes `""`, a
      missing gender takes the select field's default. */
  function ToFormData(cls: Classes, f: FormInput): (r: FormData)
    requires FormValid(cls, f)
    ensures 3 <= |r.jobTitle| <= 100 && !HasBraceOrAngle(r.jobTitle)
    ensures 2 <= |r.companyName| <= 100 && !HasBraceOrAngle(r.companyName)
    ensures 100 <= |r.jobDescription| <= 5000
    ensures 50 <= |r.companyOverview| <= 2000
    ensures r.hirerGender in GenderChoices || cls.Blank(r.hirerGender)
    ensures f.hirerGender.None? ==> r.hirerGender == DefaultGender
    ensures && Some(r.jobTitle) == f.jobTitle
            && Some(r.companyName) == f.companyName
            && Some(r.jobDescription) == f.jobDescription
            && Some(r.companyOverview) == f.companyOverview
    ensures f.hirerName.Some? ==> r.hirerName == f.hirerName.value
    ensures f.hirerGender.Some? ==> r.hirerGender == f.hirerGender.value
    ensures f.relevantExperience.Some? ==> r.relevantExperience == f.relevantExperience.value
    ensures f.hirerName.None? ==> r.hirerName == ""
    ensures f.relevantExperience.None? ==> r.relevantExperience == ""
  {
    FormValidIff(cls, f);
    FormData(
      f.jobTitle.value,
      f.companyName.value,
      f.hirerName.GetOr(""),
      f.hirerGender.GetOr(DefaultGender),
      f.jobDescription.value,
      f.companyOverview.value,
      f.relevantExperience.GetOr(""))
  }
}
