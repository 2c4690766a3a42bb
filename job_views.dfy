/**
 * What job_create and edit_job in employer_profile/views.py do around the
 * shared form checks: the gates in front of job_create (a signed-in
 * employer, a complete and verified profile, an active premium tier), the
 * job record a passing submission writes, the ownership check of edit_job,
 * and the way a saved list is shown again in the edit form.
 *
 * The database enters as values: the employers with their verification
 * flag, their company profiles and the job posts, keyed by primary key, and
 * the premium rows as objects. Identifiers and creation times that the
 * database assigns are parameters.
 */
module JobViews {
  import opened Wrappers
  import opened Text
  import opened Catalog
  import opened JobForm
  import Profile
  import Premium

  // ------------------------------------------------------------ list fields

  /** Each piece stripped: the comprehension `[s.strip() for s in pieces]`. */
  function StripEach(pieces: seq<string>): (items: seq<string>)
    ensures |items| == |pieces|
    ensures forall k :: 0 <= k < |pieces| ==> items[k] == Strip(pieces[k])
  {
    if pieces == [] then [] else [Strip(pieces[0])] + StripEach(pieces[1..])
  }

  lemma StripEachKeepsOut(pieces: seq<string>, c: char)
    requires forall k :: 0 <= k < |pieces| ==> c !in pieces[k]
    ensures forall k :: 0 <= k < |pieces| ==> c !in StripEach(pieces)[k]
  {
    forall k | 0 <= k < |pieces| ensures c !in StripEach(pieces)[k] {
      StripKeepsCharacters(pieces[k]);
    }
  }

  /**
   * What a list field stores: the comma-separated pieces, each stripped.
   * There is one item more than there are commas, no item holds a comma or
   * has whitespace at either end.
   */
  function ListValue(v: string): (items: seq<string>)
    ensures |items| >= 1
    ensures |items| >= 2 <==> ',' in v
    ensures |items| == multiset(v)[','] + 1
    ensures forall k :: 0 <= k < |items| ==> Stripped(items[k]) && ',' !in items[k]
  {
    var pieces := Split(v, ',');
    SplitCount(v, ',');
    StripEachKeepsOut(pieces, ',');
    StripEach(pieces)
  }

  /** The edit form shows a stored list as `', '.join(items)`. */
  function ShownList(items: seq<string>): string {
    JoinWith(items, ", ")
  }

  /** Each item with the space of the ", " in front of it. */
  function Spaced(items: seq<string>): (pieces: seq<string>)
    ensures |pieces| == |items|
  {
    if items == [] then [] else [[' '] + items[0]] + Spaced(items[1..])
  }

  /** Splitting a shown list at its commas gives the first item, then every other item behind a space. */
  lemma {:induction false} ShownListPieces(items: seq<string>)
    requires |items| >= 1
    requires forall k :: 0 <= k < |items| ==> ',' !in items[k]
    ensures Split(ShownList(items), ',') == [items[0]] + Spaced(items[1..])
  {
    if |items| >= 2 {
      var rest := ShownList(items[1..]);
      assert ShownList(items) == items[0] + [','] + ([' '] + rest);
      SplitCons(items[0], ',', [' '] + rest);
      SplitPrepend(' ', rest, ',');
      ShownListPieces(items[1..]);
      assert items[1..][1..] == items[2..];
    }
  }

  lemma {:induction false} StripSpaced(items: seq<string>)
    requires forall k :: 0 <= k < |items| ==> Stripped(items[k])
    ensures StripEach(Spaced(items)) == items
  {
    if items != [] {
      StripLeadingSpace(items[0]);
      StripSpaced(items[1..]);
      assert Spaced(items) == [[' '] + items[0]] + Spaced(items[1..]);
    }
  }

  lemma {:induction false} ShownListLast(items: seq<string>)
    requires |items| >= 1 && items[|items| - 1] != []
    ensures var s := ShownList(items);
      s != [] && s[|s| - 1] == items[|items| - 1][|items[|items| - 1]| - 1]
  {
    if |items| >= 2 {
      ShownListLast(items[1..]);
    }
  }

  lemma StripEachCons(x: string, xs: seq<string>)
    ensures StripEach([x] + xs) == [Strip(x)] + StripEach(xs)
  {
    assert ([x] + xs)[1..] == xs;
  }

  /** The last item of a shown list follows the ", " after the items before it. */
  lemma {:induction false} ShownListSnoc(items: seq<string>)
    requires |items| >= 2
    ensures ShownList(items) == ShownList(items[..|items| - 1]) + ", " + items[|items| - 1]
    decreases |items|
  {
    var n := |items|;
    var init := items[..n - 1];
    assert ShownList(items) == items[0] + ", " + ShownList(items[1..]);
    if n == 2 {
      assert ShownList(items[1..]) == items[1];
      assert ShownList(init) == items[0];
    } else {
      assert items[1..][..n - 2] == init[1..];
      ShownListSnoc(items[1..]);
      assert ShownList(init) == init[0] + ", " + ShownList(init[1..]);
    }
  }

  /** A shown list with a non-empty last item has no whitespace at either end, and holds a comma. */
  lemma ShownListShape(items: seq<string>)
    requires |items| >= 2 && items[|items| - 1] != []
    requires forall k :: 0 <= k < |items| ==> Stripped(items[k])
    ensures Stripped(ShownList(items)) && ',' in ShownList(items)
  {
    var s := ShownList(items);
    assert s == items[0] + ", " + ShownList(items[1..]);
    ShownListLast(items);
    assert s[|items[0]|] == ',';
  }

  /**
   * A shown list whose last item is empty ends in ", "; without its final
   * space it starts with no whitespace and ends in the comma.
   */
  lemma {:induction false} ShownListEmptyLast(items: seq<string>)
    requires |items| >= 2 && items[|items| - 1] == []
    requires forall k :: 0 <= k < |items| ==> Stripped(items[k])
    ensures var u := ShownList(items[..|items| - 1]) + [','];
      ShownList(items) == u + [' '] && u != [] && Stripped(u)
  {
    var init := items[..|items| - 1];
    var u := ShownList(init) + [','];
    ShownListSnoc(items);
    assert ShownList(items) == u + [' '];
    if |init| >= 2 {
      assert ShownList(init) == init[0] + ", " + ShownList(init[1..]);
    }
    assert init[0] == items[0];
  }

  /** Stripping one more empty piece adds one more empty item. */
  lemma {:induction false} StripEachSnocEmpty(ps: seq<string>)
    ensures StripEach(ps + [[]]) == StripEach(ps) + [[]]
  {
    var a := StripEach(ps + [[]]);
    var b := StripEach(ps) + [[]];
    forall k | 0 <= k < |a| ensures a[k] == b[k] {
      if k < |ps| {
        assert (ps + [[]])[k] == ps[k];
      }
    }
  }

  /** The form's strip removes the space of a trailing ", ". */
  lemma {:induction false} StripShownEmptyLast(items: seq<string>)
    requires |items| >= 2 && items[|items| - 1] == []
    requires forall k :: 0 <= k < |items| ==> Stripped(items[k])
    ensures Strip(ShownList(items)) == ShownList(items[..|items| - 1]) + [',']
  {
    ShownListEmptyLast(items);
    StripTrailingSpace(ShownList(items[..|items| - 1]) + [',']);
  }

  /** A trailing comma adds one empty item. */
  lemma {:induction false} ListValueSnocComma(v: string)
    ensures ListValue(v + [',']) == ListValue(v) + [[]]
  {
    SplitSnocSep(v, ',');
    StripEachSnocEmpty(Split(v, ','));
  }

  /**
   * A saved list of two or more items, shown in the edit form and submitted
   * unchanged, is stored again as the same items. An empty last item is
   * shown as a trailing ", ", whose space the form's strip removes and whose
   * comma Split turns back into the empty item.
   */
  lemma {:induction false} ListShownRoundTrip(items: seq<string>)
    requires |items| >= 2
    requires forall k :: 0 <= k < |items| ==> Stripped(items[k]) && ',' !in items[k]
    ensures ListError(Strip(ShownList(items))).None?
    ensures ListValue(Strip(ShownList(items))) == items
  {
    if items[|items| - 1] != [] {
      ShownListShape(items);
      ShownListValue(items);
    } else {
      EmptyLastRoundTrip(items);
    }
  }

  /** The round trip when the last item is empty. */
  lemma {:induction false} EmptyLastRoundTrip(items: seq<string>)
    requires |items| >= 2 && items[|items| - 1] == []
    requires forall k :: 0 <= k < |items| ==> Stripped(items[k]) && ',' !in items[k]
    ensures ListError(Strip(ShownList(items))).None?
    ensures ListValue(Strip(ShownList(items))) == items
  {
    StripShownEmptyLast(items);
    EmptyLastItems(items);
  }

  /** The items of a shown list with an empty last item, read back without the final space. */
  lemma {:induction false} EmptyLastItems(items: seq<string>)
    requires |items| >= 2 && items[|items| - 1] == []
    requires forall k :: 0 <= k < |items| ==> Stripped(items[k]) && ',' !in items[k]
    ensures ListValue(ShownList(items[..|items| - 1]) + [',']) == items
  {
    var init := items[..|items| - 1];
    assert items == init + [[]];
    EmptyLastValue(init);
  }


  /** The items of a shown list with an empty item added, read back without the final space. */
  lemma {:induction false} EmptyLastValue(init: seq<string>)
    requires |init| >= 1
    requires forall k :: 0 <= k < |init| ==> Stripped(init[k]) && ',' !in init[k]
    ensures ListValue(ShownList(init) + [',']) == init + [[]]
  {
    ShownListValue(init);
    ListValueSnocComma(ShownList(init));
  }


  /** The items of a shown list are the shown items. */
  lemma ShownListValue(items: seq<string>)
    requires |items| >= 1
    requires forall k :: 0 <= k < |items| ==> Stripped(items[k]) && ',' !in items[k]
    ensures ListValue(ShownList(items)) == items
  {
    var rest := items[1..];
    forall k | 0 <= k < |rest| ensures Stripped(rest[k]) {
      assert rest[k] == items[k + 1];
    }
    StripSpaced(rest);
    assert [items[0]] + rest == items;
    ShownListPieces(items);
    ListValueOfPieces(ShownList(items), items[0], rest);
  }

  lemma ListValueOfPieces(s: string, first: string, rest: seq<string>)
    requires Split(s, ',') == [first] + Spaced(rest)
    requires Stripped(first) && StripEach(Spaced(rest)) == rest
    ensures ListValue(s) == [first] + rest
  {
    StripEachCons(first, Spaced(rest));
  }

  // ------------------------------------------------------------ the job post

  /** The columns of a job post that the form fills in. */
  datatype JobDetails = JobDetails(
    contactEmail: string,
    applicationDeadline: int,
    title: string,
    industry: string,
    department: string,
    workType: string,
    genderRequirement: string,
    experienceLevel: string,
    experienceMin: int,
    experienceMax: int,
    salaryType: string,
    salaryFrequency: string,
    salaryMin: real,
    salaryMax: real,
    numCandidatesRequired: int,
    requirements: seq<string>,
    preferredSkills: seq<string>,
    languages: seq<string>,
    benefits: seq<string>,
    locationType: string,
    fullLocationAddress: string,
    description: string)

  /**
   * The map_location column: job_create stores the checked point
   * {'lat': lat, 'lng': lng}; edit_job stores the submitted JSON document as
   * json.loads returns it, whatever other keys it holds.
   */
  datatype StoredLocation = AtPoint(point: Coordinates) | AsSubmitted(json: string)

  datatype JobPost = JobPost(
    jobId: int,
    employer: int,
    postedAt: int,
    details: JobDetails,
    mapLocation: StoredLocation,
    isActive: bool,
    adminReview: bool)

  /** The columns a passing submission writes, read from the stripped values and the parses of them. */
  function Details(values: map<Field, string>, p: Parsed, clock: Clock): JobDetails
    requires HasFields(values) && Acceptable(values, p, clock, FormChoices)
  {
    var level := values[ExperienceLevel];
    var kind := values[SalaryType];
    JobDetails(
      values[ContactEmail], p.deadline.value, values[Title], values[Industry], values[Department],
      values[WorkType], values[GenderRequirement], level,
      if level == "intern" then 0 else p.experienceMin.value,
      if level == "intern" then 0 else p.experienceMax.value,
      kind, values[SalaryFrequency],
      if kind == "fixed" then 0.0 else p.salaryMin.value,
      p.salaryMax.value,
      p.numCandidates.value,
      ListValue(values[Requirements]), ListValue(values[PreferredSkills]),
      ListValue(values[Languages]), ListValue(values[Benefits]),
      values[LocationType], values[FullLocationAddress], values[Description])
  }

  /** A list column as the form leaves it: two items or more, each stripped and comma-free. */
  predicate ListColumn(items: seq<string>) {
    |items| >= 2 && forall k :: 0 <= k < |items| ==> Stripped(items[k]) && ',' !in items[k]
  }

  /** Contact, deadline and title columns. */
  predicate ContactColumns(d: JobDetails, clock: Clock) {
    d.contactEmail != [] && !InPast(d.applicationDeadline, clock) && 1 <= |d.title| <= 200
  }

  /** Listed choices, and a department of the industry's list. */
  predicate CategoryColumns(d: JobDetails) {
    && d.industry in Industries
    && d.department != []
    && (DepartmentsOf(d.industry).Some? ==> d.department in DepartmentsOf(d.industry).value)
    && d.workType in WorkTypes && d.genderRequirement in Genders
  }

  /** Experience bounds (0 to 0 for an intern), salary bounds by salary type, and the head count. */
  predicate PayColumns(d: JobDetails) {
    && d.experienceLevel in ExperienceLevels
    && 0 <= d.experienceMin <= d.experienceMax
    && (d.experienceLevel == "intern" ==> d.experienceMin == 0 && d.experienceMax == 0)
    && d.salaryType in SalaryTypes && d.salaryFrequency in Frequencies
    && (d.salaryType == "fixed" ==> d.salaryMin == 0.0 <= d.salaryMax)
    && (d.salaryType != "fixed" ==> 0.0 <= d.salaryMin < d.salaryMax)
    && d.numCandidatesRequired >= 1
  }

  /** The four list columns. */
  predicate ListColumns(d: JobDetails) {
    ListColumn(d.requirements) && ListColumn(d.preferredSkills) && ListColumn(d.languages) && ListColumn(d.benefits)
  }

  /** Location type, address and a description of at least 50 words. */
  predicate PlaceColumns(d: JobDetails) {
    d.locationType in LocationTypes && d.fullLocationAddress != [] && |Words(d.description)| >= 50
  }

  /** What every saved job's columns satisfy, stated without the form. */
  predicate WellFormed(d: JobDetails, clock: Clock) {
    ContactColumns(d, clock) && CategoryColumns(d) && PayColumns(d) && ListColumns(d) && PlaceColumns(d)
  }

  lemma SavedContactColumns(values: map<Field, string>, p: Parsed, clock: Clock)
    requires HasFields(values) && Acceptable(values, p, clock, FormChoices)
    ensures ContactColumns(Details(values, p, clock), clock)
  {
    assert ContactOk(values, p, clock, FormChoices);
  }

  lemma SavedCategoryColumns(values: map<Field, string>, p: Parsed, clock: Clock)
    requires HasFields(values) && Acceptable(values, p, clock, FormChoices)
    ensures CategoryColumns(Details(values, p, clock))
  {
    assert CategoryOk(values, FormChoices);
  }

  lemma SavedPayColumns(values: map<Field, string>, p: Parsed, clock: Clock)
    requires HasFields(values) && Acceptable(values, p, clock, FormChoices)
    ensures PayColumns(Details(values, p, clock))
  {
    assert ExperienceOk(values, p, FormChoices) && SalaryOk(values, p, FormChoices) && CountOk(values, p, FormChoices);
  }

  lemma SavedListColumns(values: map<Field, string>, p: Parsed, clock: Clock)
    requires HasFields(values) && Acceptable(values, p, clock, FormChoices)
    ensures ListColumns(Details(values, p, clock))
  {
    assert ListsOk(values);
    assert ',' in values[ListFields[0]] && ',' in values[ListFields[1]];
    assert ',' in values[ListFields[2]] && ',' in values[ListFields[3]];
  }

  lemma SavedPlaceColumns(values: map<Field, string>, p: Parsed, clock: Clock)
    requires HasFields(values) && Acceptable(values, p, clock, FormChoices)
    ensures PlaceColumns(Details(values, p, clock))
  {
    assert LocationOk(values, FormChoices) && DescriptionOk(values, p);
  }

  /** Every job the form writes is well formed, and its text columns are the submitted values. */
  lemma {:induction false} SavedJobWellFormed(values: map<Field, string>, p: Parsed, clock: Clock)
    requires HasFields(values) && Acceptable(values, p, clock, FormChoices)
    ensures WellFormed(Details(values, p, clock), clock)
    ensures var d := Details(values, p, clock);
      && d.title == values[Title] && d.description == values[Description]
      && d.department == values[Department] && d.fullLocationAddress == values[FullLocationAddress]
  {
    SavedContactColumns(values, p, clock);
    SavedCategoryColumns(values, p, clock);
    SavedPayColumns(values, p, clock);
    SavedListColumns(values, p, clock);
    SavedPlaceColumns(values, p, clock);
  }

  /** job_create's record: the employer's new post, live at once and not held for review. */
  function NewJob(jobId: int, employer: int, postedAt: int, values: map<Field, string>, p: Parsed, clock: Clock): (job: JobPost)
    requires HasFields(values) && Acceptable(values, p, clock, FormChoices)
    ensures job.isActive && !job.adminReview && job.employer == employer
    ensures job.mapLocation.AtPoint? && InRange(job.mapLocation.point)
  {
    JobPost(jobId, employer, postedAt, Details(values, p, clock), AtPoint(p.coordinates.value), true, false)
  }

  /** edit_job's update: the form's columns and the submitted location replace the old ones; nothing else changes. */
  function EditedJob(job: JobPost, values: map<Field, string>, p: Parsed, clock: Clock): (edited: JobPost)
    requires HasFields(values) && Acceptable(values, p, clock, FormChoices)
    ensures edited.(details := job.details, mapLocation := job.mapLocation) == job
    ensures edited.mapLocation == AsSubmitted(values[MapLocation])
  {
    job.(details := Details(values, p, clock), mapLocation := AsSubmitted(values[MapLocation]))
  }

  // ------------------------------------------------------------ the gates

  const NeedLogo: string := "upload your company logo"
  const NeedSize: string := "select your company size"
  const NeedFounded: string := "enter your company’s founded date"
  const NeedPhone: string := "provide a valid phone number"
  const NeedAddress: string := "fill in your company address"
  const PendingMessage: string := "Your verification is pending. Please wait until your account is verified."
  const NeedCertificate: string := "Please upload your verification certificate to create a job post."

  /** The details a job post needs that the profile (if there is one) lacks, in the view's order. */
  function MissingDetails(profile: Option<Profile.CompanyProfile>): (missing: seq<string>)
    ensures |missing| <= 5
    ensures missing == [] <==>
      && profile.Some? && profile.value.logo && profile.value.companySize != []
      && profile.value.foundedDate.Some? && profile.value.phoneNumber != [] && profile.value.address != []
    ensures profile.None? ==> missing == [NeedLogo, NeedSize, NeedFounded, NeedPhone, NeedAddress]
  {
    match profile
    case None => [NeedLogo, NeedSize, NeedFounded, NeedPhone, NeedAddress]
    case Some(cp) =>
      (if cp.logo then [] else [NeedLogo])
      + (if cp.companySize != [] then [] else [NeedSize])
      + (if cp.foundedDate.Some? then [] else [NeedFounded])
      + (if cp.phoneNumber != [] then [] else [NeedPhone])
      + (if cp.address != [] then [] else [NeedAddress])
  }

  /** "Please " + ", ".join(missing) + " before you can post a job." */
  function BlockedMessage(missing: seq<string>): string {
    "Please " + JoinWith(missing, ", ") + " before you can post a job."
  }

  /** The message for an employer not yet verified: pending when a certificate is on file. */
  function VerificationMessage(profile: Option<Profile.CompanyProfile>): (m: string)
    ensures m == PendingMessage <==> profile.Some? && profile.value.certificate
    ensures m == NeedCertificate <==> !(profile.Some? && profile.value.certificate)
  {
    if profile.Some? && profile.value.certificate then PendingMessage else NeedCertificate
  }

  /**
   * A profile that has a logo and whose details were saved through the
   * details form never blocks job_create for missing details.
   */
  lemma SavedProfileUnblocks(cp: Profile.CompanyProfile, values: map<Profile.DetailField, string>, founded: Option<int>, today: int)
    requires cp.logo
    requires Profile.HasDetailFields(values) && Profile.DetailErrors(values, founded, today) == map[]
    ensures MissingDetails(Some(Profile.SaveDetails(cp, values, founded, today))) == []
  {
    Profile.SavedDetailsValid(cp, values, founded, today);
  }

  // ------------------------------------------------------------ the views

  /** The employers' verification flags, their company profiles and the job posts. */
  datatype Db = Db(verified: map<int, bool>, profiles: map<int, Profile.CompanyProfile>, jobs: map<int, JobPost>)

  /**
   * The request as the views see it: the session's employer_id, the method,
   * the raw POST fields, and what the parsing libraries make of them.
   */
  datatype Request = Request(session: Option<int>, isPost: bool, post: map<Field, string>, parsed: Parsed)

  datatype Outcome =
    | ToLogin
    | NotFound
    | Forbidden(message: string)
    | Blocked(message: string)
    | ToPremium
    | ShowForm(errors: map<Field, string>, values: map<Field, string>)
    | Created(job: JobPost)
    | Saved(job: JobPost)
    | EditForm(job: JobPost)

  const NotYourJob: string := "You’re not allowed to edit this job."

  /** `if not emp_id`: no employer in the session, or the falsy id 0. */
  predicate SignedIn(session: Option<int>) {
    session.Some? && session.value != 0
  }

  /** The premium test of job_create; a missing row is created with the tier off. */
  predicate PremiumActive(premiums: map<int, Premium.EmployerPremium>, employer: int, now: Premium.DateTime)
    reads premiums.Values
  {
    employer in premiums && premiums[employer].ActiveAt(now)
  }

  /** job_create, from the session check to the response. */
  function CreateOutcome(db: Db, premiums: map<int, Premium.EmployerPremium>, req: Request, clock: Clock,
                         now: Premium.DateTime, newId: int, postedAt: int): Outcome
    reads premiums.Values
  {
    if !SignedIn(req.session) || req.session.value !in db.verified then ToLogin
    else
      var emp := req.session.value;
      var profile := Lookup(db.profiles, emp);
      var missing := MissingDetails(profile);
      if missing != [] then Blocked(BlockedMessage(missing))
      else if !db.verified[emp] then Blocked(VerificationMessage(profile))
      else if !PremiumActive(premiums, emp, now) then ToPremium
      else if !req.isPost then ShowForm(map[], map[])
      else CreateSubmission(req, clock, emp, newId, postedAt)
  }

  /** job_create's POST once every gate is passed: the new post, or the form again with its errors. */
  function CreateSubmission(req: Request, clock: Clock, emp: int, newId: int, postedAt: int): Outcome {
    var values := Values(req.post);
    var errors := JobErrors(values, req.parsed, clock, FormChoices);
    JobErrorsEmpty(values, req.parsed, clock, FormChoices);
    PassesIffAcceptable(values, req.parsed, clock, FormChoices);
    if errors == map[] then Created(NewJob(newId, emp, postedAt, values, req.parsed, clock))
    else ShowForm(errors, values)
  }

  /** edit_job for the post `jobId`, from the session check to the response. */
  function EditOutcome(db: Db, req: Request, clock: Clock, jobId: int): Outcome {
    if !SignedIn(req.session) then ToLogin
    else if req.session.value !in db.verified || jobId !in db.jobs then NotFound
    else
      var job := db.jobs[jobId];
      if job.employer != req.session.value then Forbidden(NotYourJob)
      else if !req.isPost then EditForm(job)
      else
        var values := Values(req.post);
        var errors := JobErrors(values, req.parsed, clock, FormChoices);
        JobErrorsEmpty(values, req.parsed, clock, FormChoices);
        PassesIffAcceptable(values, req.parsed, clock, FormChoices);
        if errors == map[] then Saved(EditedJob(job, values, req.parsed, clock))
        else ShowForm(errors, values)
  }

  /** The view job_create, step by step. */
  method JobCreate(db: Db, premiums: map<int, Premium.EmployerPremium>, req: Request, clock: Clock,
                   now: Premium.DateTime, newId: int, postedAt: int) returns (out: Outcome)
    ensures out == CreateOutcome(db, premiums, req, clock, now, newId, postedAt)
  {
    if !SignedIn(req.session) {
      return ToLogin;
    }
    var emp := req.session.value;
    if emp !in db.verified {
      return ToLogin;
    }
    var profile := Lookup(db.profiles, emp);
    var missing := MissingDetails(profile);
    if missing != [] {
      return Blocked(BlockedMessage(missing));
    }
    if !db.verified[emp] {
      return Blocked(VerificationMessage(profile));
    }
    if !(emp in premiums && premiums[emp].ActiveAt(now)) {
      return ToPremium;
    }
    if !req.isPost {
      return ShowForm(map[], map[]);
    }
    out := SubmitCreate(req, clock, emp, newId, postedAt);
  }

  /** The validation and save of job_create's POST. */
  method SubmitCreate(req: Request, clock: Clock, emp: int, newId: int, postedAt: int) returns (out: Outcome)
    ensures out == CreateSubmission(req, clock, emp, newId, postedAt)
  {
    var values := ExtractValues(req.post);
    var errors := ValidateJob(values, req.parsed, clock, FormChoices);
    JobErrorsEmpty(values, req.parsed, clock, FormChoices);
    PassesIffAcceptable(values, req.parsed, clock, FormChoices);
    if errors == map[] {
      out := Created(NewJob(newId, emp, postedAt, values, req.parsed, clock));
    } else {
      out := ShowForm(errors, values);
    }
  }

  /** The view edit_job, step by step. */
  method EditJob(db: Db, req: Request, clock: Clock, jobId: int) returns (out: Outcome)
    ensures out == EditOutcome(db, req, clock, jobId)
  {
    if !SignedIn(req.session) {
      return ToLogin;
    }
    var emp := req.session.value;
    if emp !in db.verified || jobId !in db.jobs {
      return NotFound;
    }
    var job := db.jobs[jobId];
    if job.employer != emp {
      return Forbidden(NotYourJob);
    }
    if !req.isPost {
      return EditForm(job);
    }
    var values := ExtractValues(req.post);
    var errors := ValidateJob(values, req.parsed, clock, FormChoices);
    JobErrorsEmpty(values, req.parsed, clock, FormChoices);
    PassesIffAcceptable(values, req.parsed, clock, FormChoices);
    if errors == map[] {
      out := Saved(EditedJob(job, values, req.parsed, clock));
    } else {
      out := ShowForm(errors, values);
    }
  }

  // ------------------------------------------------------------ what the views promise

  /**
   * job_create writes a post only for a signed-in, complete, verified,
   * premium employer whose submission passes every check; the post belongs
   * to that employer and is well formed.
   */
  lemma CreatedOnlyWhenAllowed(db: Db, premiums: map<int, Premium.EmployerPremium>, req: Request, clock: Clock,
                               now: Premium.DateTime, newId: int, postedAt: int)
    requires CreateOutcome(db, premiums, req, clock, now, newId, postedAt).Created?
    ensures SignedIn(req.session) && req.session.value in db.verified && db.verified[req.session.value]
    ensures MissingDetails(Lookup(db.profiles, req.session.value)) == []
    ensures PremiumActive(premiums, req.session.value, now)
    ensures req.isPost && Passes(Values(req.post), req.parsed, clock, FormChoices)
    ensures var job := CreateOutcome(db, premiums, req, clock, now, newId, postedAt).job;
      && job.employer == req.session.value && job.isActive && !job.adminReview
      && WellFormed(job.details, clock)
  {
    var values := Values(req.post);
    JobErrorsEmpty(values, req.parsed, clock, FormChoices);
    PassesIffAcceptable(values, req.parsed, clock, FormChoices);
    SavedJobWellFormed(values, req.parsed, clock);
  }

  /**
   * edit_job changes only the owner's post, and keeps its identity, owner,
   * creation time and moderation flags.
   */
  lemma EditKeepsIdentity(db: Db, req: Request, clock: Clock, jobId: int)
    requires EditOutcome(db, req, clock, jobId).Saved?
    ensures jobId in db.jobs && SignedIn(req.session) && db.jobs[jobId].employer == req.session.value
    ensures var old_job, job := db.jobs[jobId], EditOutcome(db, req, clock, jobId).job;
      && job.jobId == old_job.jobId && job.employer == old_job.employer && job.postedAt == old_job.postedAt
      && job.isActive == old_job.isActive && job.adminReview == old_job.adminReview
      && WellFormed(job.details, clock)
  {
    var values := Values(req.post);
    JobErrorsEmpty(values, req.parsed, clock, FormChoices);
    PassesIffAcceptable(values, req.parsed, clock, FormChoices);
    SavedJobWellFormed(values, req.parsed, clock);
  }

  /** Another employer's post is refused whatever the request carries. */
  lemma EditOfOthersForbidden(db: Db, req: Request, clock: Clock, jobId: int)
    requires SignedIn(req.session) && req.session.value in db.verified
    requires jobId in db.jobs && db.jobs[jobId].employer != req.session.value
    ensures EditOutcome(db, req, clock, jobId) == Forbidden(NotYourJob)
  {
  }

  /**
   * Past the gates, the two views accept exactly the same submissions and
   * answer a rejected one with the same errors.
   */
  lemma CreateAndEditAgree(db: Db, premiums: map<int, Premium.EmployerPremium>, req: Request, clock: Clock,
                           now: Premium.DateTime, newId: int, postedAt: int, jobId: int)
    requires SignedIn(req.session) && req.isPost
    requires CreateOutcome(db, premiums, req, clock, now, newId, postedAt).ShowForm?
          || CreateOutcome(db, premiums, req, clock, now, newId, postedAt).Created?
    requires jobId in db.jobs && db.jobs[jobId].employer == req.session.value
    ensures CreateOutcome(db, premiums, req, clock, now, newId, postedAt).Created?
        <==> EditOutcome(db, req, clock, jobId).Saved?
    ensures CreateOutcome(db, premiums, req, clock, now, newId, postedAt).ShowForm?
        ==> CreateOutcome(db, premiums, req, clock, now, newId, postedAt) == EditOutcome(db, req, clock, jobId)
  {
  }
}
