/**
 * The job-post form that job_create and edit_job in
 * employer_profile/views.py both run: the 23 submitted fields are read and
 * stripped, each is checked by the same rules in the same order, and the
 * post is written only when no field has an error.
 *
 * What the views hand to Python libraries arrives here as their results
 * (the `Parsed` record): Django's validate_email, datetime.strptime of the
 * deadline, int() of the experience and candidate counts, Decimal() of the
 * salaries and json.loads/float() of the map location. The local clock that
 * datetime.today() reads is the `Clock`.
 */
module JobForm {
  import opened Wrappers
  import opened Text
  import opened Catalog
  import Profile
  import Premium

  // ---------------------------------------------------------------- the form

  datatype Field =
    | ContactEmail | ApplicationDeadline | Title | Industry | Department
    | WorkType | GenderRequirement | ExperienceLevel | ExperienceMin | ExperienceMax
    | SalaryType | SalaryMin | SalaryMax | NumCandidatesRequired | SalaryFrequency
    | Requirements | PreferredSkills | Languages | Benefits
    | LocationType | FullLocationAddress | Description | MapLocation

  /** The fields in the order the views read them, which is also the order they are checked in. */
  const FormFields: seq<Field> := [
    ContactEmail, ApplicationDeadline, Title, Industry, Department,
    WorkType, GenderRequirement, ExperienceLevel, ExperienceMin, ExperienceMax,
    SalaryType, SalaryMin, SalaryMax, NumCandidatesRequired, SalaryFrequency,
    Requirements, PreferredSkills, Languages, Benefits,
    LocationType, FullLocationAddress, Description, MapLocation]

  const AllFields: set<Field> := {
    ContactEmail, ApplicationDeadline, Title, Industry, Department,
    WorkType, GenderRequirement, ExperienceLevel, ExperienceMin, ExperienceMax,
    SalaryType, SalaryMin, SalaryMax, NumCandidatesRequired, SalaryFrequency,
    Requirements, PreferredSkills, Languages, Benefits,
    LocationType, FullLocationAddress, Description, MapLocation}

  /** The four comma-separated list fields, in the order the views check them. */
  const ListFields: seq<Field> := [Requirements, PreferredSkills, Languages, Benefits]

  /** The POST key of each field. */
  function Name(f: Field): string {
    match f
    case ContactEmail => "contact_email"
    case ApplicationDeadline => "application_deadline"
    case Title => "title"
    case Industry => "industry"
    case Department => "department"
    case WorkType => "work_type"
    case GenderRequirement => "gender_requirement"
    case ExperienceLevel => "experience_level"
    case ExperienceMin => "experience_min"
    case ExperienceMax => "experience_max"
    case SalaryType => "salary_type"
    case SalaryMin => "salary_min"
    case SalaryMax => "salary_max"
    case NumCandidatesRequired => "num_candidates_required"
    case SalaryFrequency => "salary_frequency"
    case Requirements => "requirements"
    case PreferredSkills => "preferred_skills"
    case Languages => "languages"
    case Benefits => "benefits"
    case LocationType => "location_type"
    case FullLocationAddress => "full_location_address"
    case Description => "description"
    case MapLocation => "map_location"
  }

  /** Where a field stands in the form, and so when it is checked. */
  function Position(f: Field): (k: nat)
    ensures k < |FormFields| && FormFields[k] == f
  {
    match f
    case ContactEmail => 0
    case ApplicationDeadline => 1
    case Title => 2
    case Industry => 3
    case Department => 4
    case WorkType => 5
    case GenderRequirement => 6
    case ExperienceLevel => 7
    case ExperienceMin => 8
    case ExperienceMax => 9
    case SalaryType => 10
    case SalaryMin => 11
    case SalaryMax => 12
    case NumCandidatesRequired => 13
    case SalaryFrequency => 14
    case Requirements => 15
    case PreferredSkills => 16
    case Languages => 17
    case Benefits => 18
    case LocationType => 19
    case FullLocationAddress => 20
    case Description => 21
    case MapLocation => 22
  }

  lemma EveryField()
    ensures forall f: Field :: f in AllFields
  {
    forall f: Field ensures f in AllFields {
      assert f == FormFields[Position(f)];
    }
  }

  predicate HasFields(values: map<Field, string>) {
    forall f: Field :: f in values
  }

  /** Distinct fields have distinct POST keys, so a submission can be read as a map from fields. */
  lemma NamesDistinct(f: Field, g: Field)
    requires Name(f) == Name(g)
    ensures f == g
  {
  }

  /** `request.POST.get(Name(f), '')`, for a POST read as a map from fields. */
  function Get(post: map<Field, string>, f: Field): string {
    if f in post then post[f] else ""
  }

  /** The stripped values of the fields in `keys`. */
  function ValuesOf(post: map<Field, string>, keys: seq<Field>): map<Field, string> {
    map f | f in keys :: Strip(Get(post, f))
  }

  /** The stripped submission, one entry per field; a field left out of the POST reads as empty. */
  function Values(post: map<Field, string>): (values: map<Field, string>)
    ensures HasFields(values)
    ensures forall f: Field :: Stripped(values[f])
    ensures forall f: Field :: f !in post ==> values[f] == ""
  {
    assert forall f: Field :: f in FormFields by {
      forall f: Field ensures f in FormFields {
        assert FormFields[Position(f)] == f;
      }
    }
    ValuesOf(post, FormFields)
  }

  lemma ValuesOfStep(post: map<Field, string>, keys: seq<Field>, k: nat)
    requires k < |keys|
    ensures ValuesOf(post, keys[..k + 1]) == ValuesOf(post, keys[..k])[keys[k] := Strip(Get(post, keys[k]))]
  {
    assert keys[..k + 1] == keys[..k] + [keys[k]];
  }

  /** The loop that reads and strips every field of the POST. */
  method ExtractValues(post: map<Field, string>) returns (values: map<Field, string>)
    ensures values == Values(post)
  {
    values := map[];
    for k := 0 to |FormFields|
      invariant values == ValuesOf(post, FormFields[..k])
    {
      var f := FormFields[k];
      ValuesOfStep(post, FormFields, k);
      values := values[f := Strip(Get(post, f))];
    }
    assert FormFields[..|FormFields|] == FormFields;
  }

  // ---------------------------------------------------------------- library results and the clock

  datatype Coordinates = Coordinates(lat: real, lng: real)

  /**
   * What the library calls made of the stripped values: None where the call
   * raised. `salaryMin`/`salaryMax` are None also for a Decimal NaN, whose
   * comparison raises inside the same `try`.
   */
  datatype Parsed = Parsed(
    emailValid: bool,
    deadline: Option<int>,
    experienceMin: Option<int>,
    experienceMax: Option<int>,
    salaryMin: Option<real>,
    salaryMax: Option<real>,
    numCandidates: Option<int>,
    coordinates: Option<Coordinates>)

  /** datetime.today(): the local day number and the microseconds since midnight. */
  datatype Clock = Clock(today: int, micros: int)

  /**
   * `parsed < datetime.today()`: the deadline is read as midnight at the
   * start of its day, so its own day already counts as past once the clock
   * is beyond midnight.
   */
  predicate InPast(deadline: int, clock: Clock) {
    deadline < clock.today || (deadline == clock.today && clock.micros > 0)
  }

  predicate InRange(c: Coordinates) {
    -90.0 <= c.lat <= 90.0 && -180.0 <= c.lng <= 180.0
  }

  // ---------------------------------------------------------------- the rules

  const InvalidEmail: string := "Invalid email."
  const PastDeadline: string := "Deadline cannot be in the past."
  const LongTitle: string := "Max 200 characters."
  const BadIndustry: string := "Select a valid industry."
  const BadDepartment: string := "Select a valid department."
  const BadWorkType: string := "Select a valid work type."
  const BadOption: string := "Select a valid option."
  const BadLevel: string := "Select a valid experience level."
  const BadExperience: string := "Enter valid min ≤ max."
  const BadSalaryType: string := "Select a valid salary type."
  const BadFixedSalary: string := "Enter valid number."
  const BadSalaryMin: string := "Enter valid number < max."
  const BadSalaryMax: string := "Enter valid number > min."
  const BadCandidates: string := "Enter an integer ≥ 1."
  const BadFrequency: string := "Select a valid frequency."
  const NotAList: string := "Use comma-separated values."
  const FewWords: string := "At least 50 words required."
  const NoLocation: string := "Location is required."
  const BadCoordinates: string := "Invalid location coordinates."

  /** A listed level other than "intern" whose bounds do not read as 0 <= min <= max. */
  predicate ExperienceFails(values: map<Field, string>, p: Parsed, ch: Choices)
    requires HasFields(values)
  {
    var level := values[ExperienceLevel];
    && level in ch.experienceLevels && level != "intern"
    && !(p.experienceMin.Some? && p.experienceMax.Some?
         && p.experienceMin.value >= 0 && p.experienceMax.value >= 0
         && p.experienceMin.value <= p.experienceMax.value)
  }

  /** A fixed salary without a maximum that reads as a number >= 0. */
  predicate FixedSalaryFails(values: map<Field, string>, p: Parsed, ch: Choices)
    requires HasFields(values)
  {
    var kind := values[SalaryType];
    kind in ch.salaryTypes && kind == "fixed" && !(p.salaryMax.Some? && p.salaryMax.value >= 0.0)
  }

  /** A negotiable salary whose bounds do not read as 0 <= min < max. */
  predicate NegotiableSalaryFails(values: map<Field, string>, p: Parsed, ch: Choices)
    requires HasFields(values)
  {
    var kind := values[SalaryType];
    && kind in ch.salaryTypes && kind != "fixed"
    && !(p.salaryMin.Some? && p.salaryMax.Some?
         && p.salaryMin.value >= 0.0 && p.salaryMax.value >= 0.0
         && p.salaryMin.value < p.salaryMax.value)
  }

  /** The rule for one comma-separated list field. */
  function ListError(v: string): Option<string> {
    if v == [] then Some(Profile.Required) else if ',' !in v then Some(NotAList) else None
  }

  /** The error, if any, that the form puts on field `f`. */
  function FieldError(f: Field, values: map<Field, string>, p: Parsed, clock: Clock, ch: Choices): Option<string>
    requires HasFields(values)
  {
    var v := values[f];
    match f
    case ContactEmail =>
      if v == [] then Some(Profile.Required) else if !p.emailValid then Some(InvalidEmail) else None
    case ApplicationDeadline =>
      if v == [] then Some(Profile.Required)
      else if p.deadline.None? then Some(Profile.InvalidDate)
      else if InPast(p.deadline.value, clock) then Some(PastDeadline)
      else None
    case Title =>
      if v == [] then Some(Profile.Required) else if |v| > 200 then Some(LongTitle) else None
    case Industry =>
      if v !in ch.industries then Some(BadIndustry) else None
    case Department =>
      var industry := values[Industry];
      if v == [] then Some(Profile.Required)
      else if ch.departments(industry).Some? && v !in ch.departments(industry).value then Some(BadDepartment)
      else None
    case WorkType => if v !in ch.workTypes then Some(BadWorkType) else None
    case GenderRequirement => if v !in ch.genders then Some(BadOption) else None
    case ExperienceLevel => if v !in ch.experienceLevels then Some(BadLevel) else None
    case ExperienceMin => if ExperienceFails(values, p, ch) then Some(BadExperience) else None
    case ExperienceMax => if ExperienceFails(values, p, ch) then Some(BadExperience) else None
    case SalaryType => if v !in ch.salaryTypes then Some(BadSalaryType) else None
    case SalaryMin => if NegotiableSalaryFails(values, p, ch) then Some(BadSalaryMin) else None
    case SalaryMax =>
      if FixedSalaryFails(values, p, ch) then Some(BadFixedSalary)
      else if NegotiableSalaryFails(values, p, ch) then Some(BadSalaryMax)
      else None
    case NumCandidatesRequired =>
      if !(p.numCandidates.Some? && p.numCandidates.value >= 1) then Some(BadCandidates) else None
    case SalaryFrequency => if v !in ch.frequencies then Some(BadFrequency) else None
    case Requirements => ListError(v)
    case PreferredSkills => ListError(v)
    case Languages => ListError(v)
    case Benefits => ListError(v)
    case LocationType => if v !in ch.locationTypes then Some(BadOption) else None
    case FullLocationAddress => if v == [] then Some(Profile.Required) else None
    case Description =>
      if v == [] then Some(Profile.Required) else if |Words(v)| < 50 then Some(FewWords) else None
    case MapLocation =>
      if v == [] then Some(NoLocation)
      else if !(p.coordinates.Some? && InRange(p.coordinates.value)) then Some(BadCoordinates)
      else None
  }

  /** The `errors` dictionary the views build. */
  function JobErrors(values: map<Field, string>, p: Parsed, clock: Clock, ch: Choices): map<Field, string>
    requires HasFields(values)
  {
    map f | f in AllFields && FieldError(f, values, p, clock, ch).Some? :: FieldError(f, values, p, clock, ch).value
  }

  /** No field has an error. */
  predicate Passes(values: map<Field, string>, p: Parsed, clock: Clock, ch: Choices)
    requires HasFields(values)
  {
    forall f: Field :: FieldError(f, values, p, clock, ch).None?
  }

  lemma {:induction false} JobErrorsEmpty(values: map<Field, string>, p: Parsed, clock: Clock, ch: Choices)
    requires HasFields(values)
    ensures JobErrors(values, p, clock, ch) == map[] <==> Passes(values, p, clock, ch)
  {
    EveryField();
    if JobErrors(values, p, clock, ch) == map[] {
      forall f: Field ensures FieldError(f, values, p, clock, ch).None? {
        assert f !in JobErrors(values, p, clock, ch);
      }
    }
  }

  // The rules restated as what an accepted submission looks like, one group
  // per numbered step of the views, with no error messages involved.

  /** Steps 2-4: a contact address that validates, a deadline not in the past, a title of 1-200 characters. */
  predicate ContactOk(values: map<Field, string>, p: Parsed, clock: Clock, ch: Choices)
    requires HasFields(values)
  {
    && values[ContactEmail] != [] && p.emailValid
    && values[ApplicationDeadline] != [] && p.deadline.Some? && !InPast(p.deadline.value, clock)
    && 1 <= |values[Title]| <= 200
  }

  /** Steps 5-6: listed choices, and a department of the industry when the industry has a list. */
  predicate CategoryOk(values: map<Field, string>, ch: Choices)
    requires HasFields(values)
  {
    && values[Industry] in ch.industries
    && values[Department] != []
    && (ch.departments(values[Industry]).Some? ==> values[Department] in ch.departments(values[Industry]).value)
    && values[WorkType] in ch.workTypes
    && values[GenderRequirement] in ch.genders
  }

  /** Step 7: a listed level, and for any level but "intern" bounds 0 <= min <= max. */
  predicate ExperienceOk(values: map<Field, string>, p: Parsed, ch: Choices)
    requires HasFields(values)
  {
    && values[ExperienceLevel] in ch.experienceLevels
    && (values[ExperienceLevel] != "intern" ==>
          p.experienceMin.Some? && p.experienceMax.Some?
          && 0 <= p.experienceMin.value <= p.experienceMax.value)
  }

  /** Step 8: a fixed salary needs a maximum >= 0, a negotiable one 0 <= min < max. */
  predicate SalaryOk(values: map<Field, string>, p: Parsed, ch: Choices)
    requires HasFields(values)
  {
    && values[SalaryType] in ch.salaryTypes
    && (values[SalaryType] == "fixed" ==> p.salaryMax.Some? && p.salaryMax.value >= 0.0)
    && (values[SalaryType] != "fixed" ==>
          p.salaryMin.Some? && p.salaryMax.Some?
          && 0.0 <= p.salaryMin.value < p.salaryMax.value)
  }

  /** Step 9 and the frequency: at least one candidate, a listed frequency. */
  predicate CountOk(values: map<Field, string>, p: Parsed, ch: Choices)
    requires HasFields(values)
  {
    p.numCandidates.Some? && p.numCandidates.value >= 1 && values[SalaryFrequency] in ch.frequencies
  }

  /** Step 10: every list field holds a comma. */
  predicate ListsOk(values: map<Field, string>)
    requires HasFields(values)
  {
    forall k :: 0 <= k < |ListFields| ==> ',' in values[ListFields[k]]
  }

  /** Step 11: a listed location type and an address. */
  predicate LocationOk(values: map<Field, string>, ch: Choices)
    requires HasFields(values)
  {
    values[LocationType] in ch.locationTypes && values[FullLocationAddress] != []
  }

  /** Step 12 and the map: a description of at least 50 words, coordinates on the globe. */
  predicate DescriptionOk(values: map<Field, string>, p: Parsed)
    requires HasFields(values)
  {
    && values[Description] != [] && |Words(values[Description])| >= 50
    && values[MapLocation] != [] && p.coordinates.Some? && InRange(p.coordinates.value)
  }

  predicate Acceptable(values: map<Field, string>, p: Parsed, clock: Clock, ch: Choices)
    requires HasFields(values)
  {
    && ContactOk(values, p, clock, ch) && CategoryOk(values, ch) && ExperienceOk(values, p, ch)
    && SalaryOk(values, p, ch) && CountOk(values, p, ch) && ListsOk(values) && LocationOk(values, ch)
    && DescriptionOk(values, p)
  }

  /** Every field of `fields` passes its check. */
  predicate PassesAll(values: map<Field, string>, p: Parsed, clock: Clock, ch: Choices, fields: seq<Field>)
    requires HasFields(values)
  {
    forall f :: f in fields ==> FieldError(f, values, p, clock, ch).None?
  }

  lemma ContactRules(values: map<Field, string>, p: Parsed, clock: Clock, ch: Choices)
    requires HasFields(values)
    ensures PassesAll(values, p, clock, ch, [ContactEmail, ApplicationDeadline, Title]) <==> ContactOk(values, p, clock, ch)
  {
    assert FieldError(ContactEmail, values, p, clock, ch).None? <==> values[ContactEmail] != [] && p.emailValid;
    assert FieldError(ApplicationDeadline, values, p, clock, ch).None? <==>
      values[ApplicationDeadline] != [] && p.deadline.Some? && !InPast(p.deadline.value, clock);
    assert FieldError(Title, values, p, clock, ch).None? <==> 1 <= |values[Title]| <= 200;
  }

  lemma CategoryRules(values: map<Field, string>, p: Parsed, clock: Clock, ch: Choices)
    requires HasFields(values)
    ensures PassesAll(values, p, clock, ch, [Industry, Department, WorkType, GenderRequirement]) <==> CategoryOk(values, ch)
  {
    var industry, department := values[Industry], values[Department];
    assert FieldError(Industry, values, p, clock, ch).None? <==> industry in ch.industries;
    assert FieldError(Department, values, p, clock, ch).None? <==>
      department != [] && (ch.departments(industry).Some? ==> department in ch.departments(industry).value);
    assert FieldError(WorkType, values, p, clock, ch).None? <==> values[WorkType] in ch.workTypes;
    assert FieldError(GenderRequirement, values, p, clock, ch).None? <==> values[GenderRequirement] in ch.genders;
  }

  lemma ExperienceRules(values: map<Field, string>, p: Parsed, clock: Clock, ch: Choices)
    requires HasFields(values)
    ensures PassesAll(values, p, clock, ch, [ExperienceLevel, ExperienceMin, ExperienceMax]) <==> ExperienceOk(values, p, ch)
  {
    assert FieldError(ExperienceLevel, values, p, clock, ch).None? <==> values[ExperienceLevel] in ch.experienceLevels;
    assert FieldError(ExperienceMin, values, p, clock, ch).None? <==> !ExperienceFails(values, p, ch);
    assert FieldError(ExperienceMax, values, p, clock, ch).None? <==> !ExperienceFails(values, p, ch);
  }

  lemma SalaryRules(values: map<Field, string>, p: Parsed, clock: Clock, ch: Choices)
    requires HasFields(values)
    ensures PassesAll(values, p, clock, ch, [SalaryType, SalaryMin, SalaryMax]) <==> SalaryOk(values, p, ch)
  {
    assert FieldError(SalaryType, values, p, clock, ch).None? <==> values[SalaryType] in ch.salaryTypes;
    assert FieldError(SalaryMin, values, p, clock, ch).None? <==> !NegotiableSalaryFails(values, p, ch);
    assert FieldError(SalaryMax, values, p, clock, ch).None? <==>
      !FixedSalaryFails(values, p, ch) && !NegotiableSalaryFails(values, p, ch);
  }

  lemma CountRules(values: map<Field, string>, p: Parsed, clock: Clock, ch: Choices)
    requires HasFields(values)
    ensures PassesAll(values, p, clock, ch, [NumCandidatesRequired, SalaryFrequency]) <==> CountOk(values, p, ch)
  {
    assert FieldError(NumCandidatesRequired, values, p, clock, ch).None? <==> p.numCandidates.Some? && p.numCandidates.value >= 1;
    assert FieldError(SalaryFrequency, values, p, clock, ch).None? <==> values[SalaryFrequency] in ch.frequencies;
  }

  lemma ListRules(values: map<Field, string>, p: Parsed, clock: Clock, ch: Choices)
    requires HasFields(values)
    ensures PassesAll(values, p, clock, ch, ListFields) <==> ListsOk(values)
  {
    forall k | 0 <= k < |ListFields|
      ensures FieldError(ListFields[k], values, p, clock, ch) == ListError(values[ListFields[k]])
    {
      ListFieldError(k, values, p, clock, ch);
    }
  }

  lemma LocationRules(values: map<Field, string>, p: Parsed, clock: Clock, ch: Choices)
    requires HasFields(values)
    ensures PassesAll(values, p, clock, ch, [LocationType, FullLocationAddress]) <==> LocationOk(values, ch)
  {
    assert FieldError(LocationType, values, p, clock, ch).None? <==> values[LocationType] in ch.locationTypes;
    assert FieldError(FullLocationAddress, values, p, clock, ch).None? <==> values[FullLocationAddress] != [];
  }

  lemma DescriptionRules(values: map<Field, string>, p: Parsed, clock: Clock, ch: Choices)
    requires HasFields(values)
    ensures PassesAll(values, p, clock, ch, [Description, MapLocation]) <==> DescriptionOk(values, p)
  {
    assert FieldError(Description, values, p, clock, ch).None? <==> values[Description] != [] && |Words(values[Description])| >= 50;
    assert FieldError(MapLocation, values, p, clock, ch).None? <==>
      values[MapLocation] != [] && p.coordinates.Some? && InRange(p.coordinates.value);
  }

  /** The error checks accept exactly the acceptable submissions. */
  lemma {:induction false} PassesIffAcceptable(values: map<Field, string>, p: Parsed, clock: Clock, ch: Choices)
    requires HasFields(values)
    ensures Passes(values, p, clock, ch) <==> Acceptable(values, p, clock, ch)
  {
    ContactRules(values, p, clock, ch);
    CategoryRules(values, p, clock, ch);
    ExperienceRules(values, p, clock, ch);
    SalaryRules(values, p, clock, ch);
    CountRules(values, p, clock, ch);
    ListRules(values, p, clock, ch);
    LocationRules(values, p, clock, ch);
    DescriptionRules(values, p, clock, ch);
    if Acceptable(values, p, clock, ch) {
      forall f: Field ensures FieldError(f, values, p, clock, ch).None? {
        var k := Position(f);
        assert f == FormFields[k];
      }
    }
  }

  // ------------------------------------------------------- the checks in order

  /** `errors` holds exactly the entries of `spec` for the fields before position `n`. */
  predicate Agrees(errors: map<Field, string>, n: nat, spec: map<Field, string>) {
    forall f: Field :: Lookup(errors, f) == if Position(f) < n then Lookup(spec, f) else None
  }

  /** Recording the check of the field at position `n` keeps the error map in step with `spec`. */
  lemma AgreeStep(errors: map<Field, string>, after: map<Field, string>, f: Field, n: nat, spec: map<Field, string>)
    requires n == Position(f) && Agrees(errors, n, spec)
    requires after == Record(errors, f, Lookup(spec, f))
    ensures Agrees(after, n + 1, spec)
  {
    forall g: Field ensures Lookup(after, g) == if Position(g) < n + 1 then Lookup(spec, g) else None {
      if g != f {
        assert Position(g) != Position(f);
        assert Lookup(after, g) == Lookup(errors, g);
      }
    }
  }

  /** Once every field is checked, the error map is `spec`. */
  lemma AgreeAll(errors: map<Field, string>, spec: map<Field, string>)
    requires Agrees(errors, |FormFields|, spec)
    ensures errors == spec
  {
    forall f: Field ensures f in errors <==> f in spec {
      assert Lookup(errors, f) == Lookup(spec, f);
    }
    forall f | f in errors ensures errors[f] == spec[f] {
      assert Lookup(errors, f) == Lookup(spec, f);
    }
  }

  /** The entry of the form's `errors` dictionary for one field is that field's rule. */
  lemma ErrorOf(f: Field, values: map<Field, string>, p: Parsed, clock: Clock, ch: Choices)
    requires HasFields(values)
    ensures Lookup(JobErrors(values, p, clock, ch), f) == FieldError(f, values, p, clock, ch)
  {
    EveryField();
  }

  /** Steps 2-4: the contact address, the deadline and the title. */
  method CheckContact(values: map<Field, string>, p: Parsed, clock: Clock, ch: Choices) returns (errors: map<Field, string>)
    requires HasFields(values)
    ensures Agrees(errors, 3, JobErrors(values, p, clock, ch))
  {
    errors := map[];
    ghost var spec := JobErrors(values, p, clock, ch);
    ghost var prev := errors;
    var email := values[ContactEmail];
    if email == [] {
      errors := errors[ContactEmail := Profile.Required];
    } else if !p.emailValid {
      errors := errors[ContactEmail := InvalidEmail];
    }
    ErrorOf(ContactEmail, values, p, clock, ch);
    AgreeStep(prev, errors, ContactEmail, 0, spec);
    prev := errors;
    var dl := values[ApplicationDeadline];
    if dl == [] {
      errors := errors[ApplicationDeadline := Profile.Required];
    } else if p.deadline.None? {
      errors := errors[ApplicationDeadline := Profile.InvalidDate];
    } else if InPast(p.deadline.value, clock) {
      errors := errors[ApplicationDeadline := PastDeadline];
    }
    ErrorOf(ApplicationDeadline, values, p, clock, ch);
    AgreeStep(prev, errors, ApplicationDeadline, 1, spec);
    prev := errors;
    var title := values[Title];
    if title == [] {
      errors := errors[Title := Profile.Required];
    } else if |title| > 200 {
      errors := errors[Title := LongTitle];
    }
    ErrorOf(Title, values, p, clock, ch);
    AgreeStep(prev, errors, Title, 2, spec);
  }

  /** Step 5: the industry, and the department against that industry's list. */
  method CheckIndustry(values: map<Field, string>, p: Parsed, clock: Clock, ch: Choices, errors0: map<Field, string>)
    returns (errors: map<Field, string>)
    requires HasFields(values) && Agrees(errors0, 3, JobErrors(values, p, clock, ch))
    ensures Agrees(errors, 5, JobErrors(values, p, clock, ch))
  {
    errors := errors0;
    ghost var spec := JobErrors(values, p, clock, ch);
    ghost var prev := errors;
    var ind := values[Industry];
    if ind !in ch.industries {
      errors := errors[Industry := BadIndustry];
    }
    ErrorOf(Industry, values, p, clock, ch);
    AgreeStep(prev, errors, Industry, 3, spec);
    prev := errors;
    var dept := values[Department];
    var departments := ch.departments(ind);
    if dept == [] {
      errors := errors[Department := Profile.Required];
    } else if departments.Some? && dept !in departments.value {
      errors := errors[Department := BadDepartment];
    }
    ErrorOf(Department, values, p, clock, ch);
    AgreeStep(prev, errors, Department, 4, spec);
  }

  /** Step 6: the work type and the gender requirement. */
  method CheckWorkType(values: map<Field, string>, p: Parsed, clock: Clock, ch: Choices, errors0: map<Field, string>)
    returns (errors: map<Field, string>)
    requires HasFields(values) && Agrees(errors0, 5, JobErrors(values, p, clock, ch))
    ensures Agrees(errors, 7, JobErrors(values, p, clock, ch))
  {
    errors := errors0;
    ghost var spec := JobErrors(values, p, clock, ch);
    ghost var prev := errors;
    if values[WorkType] !in ch.workTypes {
      errors := errors[WorkType := BadWorkType];
    }
    ErrorOf(WorkType, values, p, clock, ch);
    AgreeStep(prev, errors, WorkType, 5, spec);
    prev := errors;
    if values[GenderRequirement] !in ch.genders {
      errors := errors[GenderRequirement := BadOption];
    }
    ErrorOf(GenderRequirement, values, p, clock, ch);
    AgreeStep(prev, errors, GenderRequirement, 6, spec);
  }

  /** Step 7: the experience level, and the bounds unless the level is "intern" (which means 0 to 0). */
  method CheckExperience(values: map<Field, string>, p: Parsed, clock: Clock, ch: Choices, errors0: map<Field, string>)
    returns (errors: map<Field, string>)
    requires HasFields(values) && Agrees(errors0, 7, JobErrors(values, p, clock, ch))
    ensures Agrees(errors, 10, JobErrors(values, p, clock, ch))
  {
    errors := errors0;
    ghost var spec := JobErrors(values, p, clock, ch);
    var level := values[ExperienceLevel];
    if level !in ch.experienceLevels {
      errors := errors[ExperienceLevel := BadLevel];
    } else if level != "intern" {
      var ok := p.experienceMin.Some? && p.experienceMax.Some?;
      if ok {
        var lo, hi := p.experienceMin.value, p.experienceMax.value;
        ok := !(lo < 0 || hi < 0 || lo > hi);
      }
      if !ok {
        errors := errors[ExperienceMin := BadExperience][ExperienceMax := BadExperience];
      }
    }
    ghost var e1 := Record(errors0, ExperienceLevel, FieldError(ExperienceLevel, values, p, clock, ch));
    ghost var e2 := Record(e1, ExperienceMin, FieldError(ExperienceMin, values, p, clock, ch));
    ErrorOf(ExperienceLevel, values, p, clock, ch);
    AgreeStep(errors0, e1, ExperienceLevel, 7, spec);
    ErrorOf(ExperienceMin, values, p, clock, ch);
    AgreeStep(e1, e2, ExperienceMin, 8, spec);
    ErrorOf(ExperienceMax, values, p, clock, ch);
    AgreeStep(e2, errors, ExperienceMax, 9, spec);
  }

  /** Step 8: the salary type, then a fixed maximum or negotiable bounds. */
  method CheckSalary(values: map<Field, string>, p: Parsed, clock: Clock, ch: Choices, errors0: map<Field, string>)
    returns (errors: map<Field, string>)
    requires HasFields(values) && Agrees(errors0, 10, JobErrors(values, p, clock, ch))
    ensures Agrees(errors, 13, JobErrors(values, p, clock, ch))
  {
    errors := errors0;
    ghost var spec := JobErrors(values, p, clock, ch);
    var kind := values[SalaryType];
    if kind !in ch.salaryTypes {
      errors := errors[SalaryType := BadSalaryType];
    } else if kind == "fixed" {
      if !(p.salaryMax.Some? && p.salaryMax.value >= 0.0) {
        errors := errors[SalaryMax := BadFixedSalary];
      }
    } else {
      var ok := p.salaryMin.Some? && p.salaryMax.Some?;
      if ok {
        var lo, hi := p.salaryMin.value, p.salaryMax.value;
        ok := !(lo < 0.0 || hi < 0.0 || lo >= hi);
      }
      if !ok {
        errors := errors[SalaryMin := BadSalaryMin][SalaryMax := BadSalaryMax];
      }
    }
    ghost var e1 := Record(errors0, SalaryType, FieldError(SalaryType, values, p, clock, ch));
    ghost var e2 := Record(e1, SalaryMin, FieldError(SalaryMin, values, p, clock, ch));
    ErrorOf(SalaryType, values, p, clock, ch);
    AgreeStep(errors0, e1, SalaryType, 10, spec);
    ErrorOf(SalaryMin, values, p, clock, ch);
    AgreeStep(e1, e2, SalaryMin, 11, spec);
    ErrorOf(SalaryMax, values, p, clock, ch);
    AgreeStep(e2, errors, SalaryMax, 12, spec);
  }

  /** Step 9 and the pay frequency. */
  method CheckCount(values: map<Field, string>, p: Parsed, clock: Clock, ch: Choices, errors0: map<Field, string>)
    returns (errors: map<Field, string>)
    requires HasFields(values) && Agrees(errors0, 13, JobErrors(values, p, clock, ch))
    ensures Agrees(errors, 15, JobErrors(values, p, clock, ch))
  {
    errors := errors0;
    ghost var spec := JobErrors(values, p, clock, ch);
    ghost var prev := errors;
    if !(p.numCandidates.Some? && p.numCandidates.value >= 1) {
      errors := errors[NumCandidatesRequired := BadCandidates];
    }
    ErrorOf(NumCandidatesRequired, values, p, clock, ch);
    AgreeStep(prev, errors, NumCandidatesRequired, 13, spec);
    prev := errors;
    if values[SalaryFrequency] !in ch.frequencies {
      errors := errors[SalaryFrequency := BadFrequency];
    }
    ErrorOf(SalaryFrequency, values, p, clock, ch);
    AgreeStep(prev, errors, SalaryFrequency, 14, spec);
  }

  /** One pass of the loop over the list fields. */
  lemma ListCheckStep(errors: map<Field, string>, after: map<Field, string>, k: nat,
                      values: map<Field, string>, p: Parsed, clock: Clock, ch: Choices)
    requires k < |ListFields|
    requires HasFields(values) && Agrees(errors, 15 + k, JobErrors(values, p, clock, ch))
    requires after == Record(errors, ListFields[k], ListError(values[ListFields[k]]))
    ensures Agrees(after, 16 + k, JobErrors(values, p, clock, ch))
  {
    var f := ListFields[k];
    ListFieldRecorded(k, values, p, clock, ch);
    AgreeStep(errors, after, f, 15 + k, JobErrors(values, p, clock, ch));
  }

  /** Each list field's error is the list rule applied to its value. */
  lemma ListFieldError(k: nat, values: map<Field, string>, p: Parsed, clock: Clock, ch: Choices)
    requires k < |ListFields| && HasFields(values)
    ensures FieldError(ListFields[k], values, p, clock, ch) == ListError(values[ListFields[k]])
  {
  }

  /** The `k`th list field is checked in place 15 + `k`, and its entry in the error map is the list rule's verdict. */
  lemma ListFieldRecorded(k: nat, values: map<Field, string>, p: Parsed, clock: Clock, ch: Choices)
    requires k < |ListFields| && HasFields(values)
    ensures Position(ListFields[k]) == 15 + k
    ensures Lookup(JobErrors(values, p, clock, ch), ListFields[k]) == ListError(values[ListFields[k]])
  {
    ListFieldError(k, values, p, clock, ch);
    ErrorOf(ListFields[k], values, p, clock, ch);
  }

  /** Step 10: the loop over the comma-separated list fields. */
  method CheckLists(values: map<Field, string>, ghost p: Parsed, ghost clock: Clock, ghost ch: Choices, errors0: map<Field, string>)
    returns (errors: map<Field, string>)
    requires HasFields(values) && Agrees(errors0, 15, JobErrors(values, p, clock, ch))
    ensures Agrees(errors, 19, JobErrors(values, p, clock, ch))
  {
    errors := errors0;
    for k := 0 to |ListFields|
      invariant Agrees(errors, 15 + k, JobErrors(values, p, clock, ch))
    {
      var field := ListFields[k];
      ghost var prev := errors;
      var v := values[field];
      if v == [] {
        errors := errors[field := Profile.Required];
      } else if ',' !in v {
        errors := errors[field := NotAList];
      }
      ListCheckStep(prev, errors, k, values, p, clock, ch);
    }
  }

  /** Step 11: the location type and the address. */
  method CheckLocation(values: map<Field, string>, p: Parsed, clock: Clock, ch: Choices, errors0: map<Field, string>)
    returns (errors: map<Field, string>)
    requires HasFields(values) && Agrees(errors0, 19, JobErrors(values, p, clock, ch))
    ensures Agrees(errors, 21, JobErrors(values, p, clock, ch))
  {
    errors := errors0;
    ghost var spec := JobErrors(values, p, clock, ch);
    ghost var prev := errors;
    if values[LocationType] !in ch.locationTypes {
      errors := errors[LocationType := BadOption];
    }
    ErrorOf(LocationType, values, p, clock, ch);
    AgreeStep(prev, errors, LocationType, 19, spec);
    prev := errors;
    if values[FullLocationAddress] == [] {
      errors := errors[FullLocationAddress := Profile.Required];
    }
    ErrorOf(FullLocationAddress, values, p, clock, ch);
    AgreeStep(prev, errors, FullLocationAddress, 20, spec);
  }

  /** Step 12: the description must hold at least 50 words. */
  method CheckDescription(values: map<Field, string>, p: Parsed, clock: Clock, ch: Choices, errors0: map<Field, string>)
    returns (errors: map<Field, string>)
    requires HasFields(values) && Agrees(errors0, 21, JobErrors(values, p, clock, ch))
    ensures Agrees(errors, 22, JobErrors(values, p, clock, ch))
  {
    errors := errors0;
    ghost var spec := JobErrors(values, p, clock, ch);
    var desc := values[Description];
    if desc == [] {
      errors := errors[Description := Profile.Required];
    } else if |Words(desc)| < 50 {
      errors := errors[Description := FewWords];
    }
    ErrorOf(Description, values, p, clock, ch);
    AgreeStep(errors0, errors, Description, 21, spec);
  }

  /** The last check: the map location must hold coordinates within range. */
  method CheckMapLocation(values: map<Field, string>, p: Parsed, clock: Clock, ch: Choices, errors0: map<Field, string>)
    returns (errors: map<Field, string>)
    requires HasFields(values) && Agrees(errors0, 22, JobErrors(values, p, clock, ch))
    ensures Agrees(errors, 23, JobErrors(values, p, clock, ch))
  {
    errors := errors0;
    ghost var spec := JobErrors(values, p, clock, ch);
    var loc := values[MapLocation];
    if loc == [] {
      errors := errors[MapLocation := NoLocation];
    } else if !(p.coordinates.Some? && InRange(p.coordinates.value)) {
      errors := errors[MapLocation := BadCoordinates];
    }
    ErrorOf(MapLocation, values, p, clock, ch);
    AgreeStep(errors0, errors, MapLocation, 22, spec);
  }

  /** The validation job_create and edit_job run, check by check in the views' order. */
  method ValidateJob(values: map<Field, string>, p: Parsed, clock: Clock, ch: Choices) returns (errors: map<Field, string>)
    requires HasFields(values)
    ensures errors == JobErrors(values, p, clock, ch)
  {
    errors := CheckContact(values, p, clock, ch);
    errors := CheckIndustry(values, p, clock, ch, errors);
    errors := CheckWorkType(values, p, clock, ch, errors);
    errors := CheckExperience(values, p, clock, ch, errors);
    errors := CheckSalary(values, p, clock, ch, errors);
    errors := CheckCount(values, p, clock, ch, errors);
    errors := CheckLists(values, p, clock, ch, errors);
    errors := CheckLocation(values, p, clock, ch, errors);
    errors := CheckDescription(values, p, clock, ch, errors);
    errors := CheckMapLocation(values, p, clock, ch, errors);
    AgreeAll(errors, JobErrors(values, p, clock, ch));
  }

  // ------------------------------------------------------- consequences of the rules

  /**
   * The deadline is compared as midnight of its date against the current
   * date and time: today's date is refused at any moment after midnight and
   * accepted only at midnight exactly.
   */
  lemma DeadlineToday(values: map<Field, string>, p: Parsed, clock: Clock, ch: Choices)
    requires HasFields(values) && values[ApplicationDeadline] != [] && p.deadline == Some(clock.today)
    requires 0 <= clock.micros
    ensures ApplicationDeadline in JobErrors(values, p, clock, ch) <==> clock.micros > 0
    ensures clock.micros > 0 ==> JobErrors(values, p, clock, ch)[ApplicationDeadline] == PastDeadline
  {
    EveryField();
  }

  /** A description of at most 98 characters cannot hold 50 words, so it is always refused. */
  lemma ShortDescriptionRejected(values: map<Field, string>, p: Parsed, clock: Clock, ch: Choices)
    requires HasFields(values) && |values[Description]| <= 98
    ensures Description in JobErrors(values, p, clock, ch)
  {
    EveryField();
    var ws := Words(values[Description]);
    assert |ws| <= 49;
  }

  /**
   * With lists where every industry with a department list is a listed
   * industry (the views' lists are such, by Catalog.FormDepartmentsListed),
   * an industry outside the list has no department list, so any non-empty
   * department passes its own check; only the industry is refused.
   */
  lemma UnknownIndustryDepartmentUnchecked(values: map<Field, string>, p: Parsed, clock: Clock, ch: Choices)
    requires HasFields(values) && DepartmentsListed(ch)
    requires values[Industry] !in ch.industries && values[Department] != []
    ensures Industry in JobErrors(values, p, clock, ch) && Department !in JobErrors(values, p, clock, ch)
  {
    EveryField();
    assert ch.departments(values[Industry]).None?;
  }

  /**
   * The experience bounds are refused together and with the same message,
   * and never for the "intern" level.
   */
  lemma ExperienceErrorsPaired(values: map<Field, string>, p: Parsed, clock: Clock, ch: Choices)
    requires HasFields(values)
    ensures var errors := JobErrors(values, p, clock, ch);
      && (ExperienceMin in errors <==> ExperienceMax in errors)
      && (ExperienceMin in errors ==> errors[ExperienceMin] == errors[ExperienceMax] == BadExperience)
      && (values[ExperienceLevel] == "intern" ==> ExperienceMin !in errors)
  {
    EveryField();
  }

  /**
   * A refused minimum salary always comes with a refused maximum; a
   * maximum refused alone means a fixed salary.
   */
  lemma SalaryErrorsPaired(values: map<Field, string>, p: Parsed, clock: Clock, ch: Choices)
    requires HasFields(values)
    ensures var errors := JobErrors(values, p, clock, ch);
      && (SalaryMin in errors ==> SalaryMax in errors && errors[SalaryMax] == BadSalaryMax)
      && (SalaryMax in errors && SalaryMin !in errors ==> values[SalaryType] == "fixed")
  {
    EveryField();
  }
}
