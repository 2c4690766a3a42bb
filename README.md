# workwise: job search, job-post form and employer rules

A model of the checkable core of the workwise Django job board.

It covers the public job search of `index/views.py`:
- the five search fields, trimmed and required;
- three exact signals and two fuzzy signals with fixed thresholds;
- a recency score and four priority buckets;
- a stable sort of each bucket, most recent first, and the buckets concatenated in priority order;
- the `format_label` helper and the days-remaining count of a job page.

It also covers the employer side of `employer_profile/views.py`:
- the job-post form that `job_create` and `edit_job` share: 23 stripped fields, checked in the views' order against the fixed choice lists;
- what a passing form writes, and how a saved list reappears in the edit form;
- the gates in front of `job_create`: sign-in, profile details, verification and the premium tier;
- the ownership check of `edit_job`;
- the status, rank and order of the `manage_jobs` listing;
- the premium entitlement test and the one-month subscription;
- the dashboard's profile completeness;
- the password, phone, web-address and company-details rules of `profile_manage`.

Modules:
- `Text`: Python's `str.isspace`, `strip`, `split(sep)`, `split()` and `join`.
- `Catalog`: the choice lists.
- `JobSearch`, `IndexViews`, `JobForm`, `JobViews`, `ManageJobs`, `Premium`, `Profile`: the views.
- `Wrappers`: `Option` and two map helpers.

Imperative code is modelled as methods with loops and is proved against specification functions:
- the scan that fills the buckets;
- the field-by-field filling of the error dictionary, including the loops over the list fields and the web addresses;
- the row loop of `manage_jobs`;
- the subscribe update of the premium row, which is a class with its fields.

Pure expressions are modelled as functions, and lemmas state what they promise.

## Model

| member | source | states |
|---|---|---|
| Text.Strip | workwise/index/views.py:145-149 | the result has no whitespace at either end; it is empty exactly when the input is all whitespace; an input with no outer whitespace is returned unchanged |
| Text.StripIsMiddle | workwise/index/views.py:145-149 | the result is a contiguous part of the input with only whitespace before and after it |
| Text.StripIdempotent | workwise/index/views.py:145-149 | stripping twice gives the same as stripping once |
| Text.StripKeepsCharacters | workwise/employer_profile/views.py:406-409 | every character of a stripped value was in the original value |
| Text.SplitCount | workwise/employer_profile/views.py:406-409 | split(',') gives one piece more than the value has commas |
| Text.Split | workwise/employer_profile/views.py:406-409 | split(',') yields at least one piece; no piece holds the separator; there are two or more pieces exactly when the value has a comma; joining the pieces gives the value back |
| Text.SplitOf | workwise/employer_profile/views.py:406-409 | any separator-free pieces that join to a value are exactly its split |
| Text.Words | workwise/employer_profile/views.py:371 | split() gives non-empty, whitespace-free words; there are at most (n+1)/2 of them; there are none exactly when the value is blank |
| Text.WordsSpellNonSpace | workwise/employer_profile/views.py:371 | the words, concatenated, are exactly the non-whitespace characters in order |
| JobSearch.ExactCount | workwise/index/views.py:168-171 | the exact count is at most 3; it is 3 exactly when industry, department and work type all match, and 0 exactly when none does |
| JobSearch.FuzzCount | workwise/index/views.py:179-180 | the fuzzy count is at most 2; it is 2 exactly when location ≥ 80 and title ≥ 60, and 0 exactly when neither holds |
| JobSearch.DaysOld | workwise/index/views.py:183 | `timedelta.days` is the whole days elapsed, rounded down from the exact difference in microseconds |
| JobSearch.Recency | workwise/index/views.py:184 | the integer numerator is 0 from day 30 on and positive before |
| JobSearch.RecencyIsScaledScore | workwise/index/views.py:184 | the integer numerator is 30 times the source's score `max(0, (30 - days_old)/30)`, so both order any two postings the same way |
| JobSearch.RecencyFacts | workwise/index/views.py:183-184 | the score is never negative, is 0 from day 30 on and never grows with age; it is at most 1 exactly when the age is not negative, because the upper end is not clamped |
| JobSearch.BucketOf | workwise/index/views.py:186-195 | a posting is discarded exactly when its exact plus fuzzy count is below 2; a full exact match always lands in bucket 1, 2 or 3 |
| JobSearch.BucketRules | workwise/index/views.py:187-195 | the four bucket rules hold without their priority order: bucket 2 means no location match, bucket 3 no title match, bucket 4 at most two exact matches; so the buckets are mutually exclusive |
| JobSearch.SortDesc | workwise/index/views.py:198-199 | `sorted(..., reverse=True)` by recency gives a non-increasing recency; the result is a permutation of its input; entries of equal recency keep their order, so the sort is stable |
| JobSearch.SortBucketPermutes | workwise/index/views.py:198-199 | `sort_bucket` returns the bucket's postings, each as often as in the bucket |
| JobSearch.RankedOrdered | workwise/index/views.py:201-206 | along the result the bucket is 1 to 4 and never decreases, and within a bucket the recency never increases |
| JobSearch.RankedStable | workwise/index/views.py:197-206 | postings that share a bucket and a recency appear in the result in their input order |
| JobSearch.RankedPermutesKept | workwise/index/views.py:186-206 | the result is a permutation of the postings that are not discarded: nothing is added, lost or duplicated |
| JobSearch.DiscardedNeverListed | workwise/index/views.py:193-195 | a posting with fewer than two signals in all is never listed |
| JobSearch.FullExactMatchListed | workwise/index/views.py:187-192 | a posting matching industry, department and work type exactly is always listed |
| JobSearch.BestMatchesFirst | workwise/index/views.py:187-206 | every bucket-1 posting comes before every other listed posting |
| JobSearch.SearchRejectsBlankField | workwise/index/views.py:145-160 | the search fails with "Please fill in all filter fields." exactly when one of the five fields is empty or whitespace only |
| JobSearch.FillBuckets | workwise/index/views.py:163-195 | the scan loop leaves each bucket list holding that bucket's postings, with their recency, in scan order |
| JobSearch.JobList | workwise/index/views.py:144-206 | the view returns the search's answer: the error for an incomplete search, otherwise the four sorted buckets concatenated |
| IndexViews.Replace | workwise/index/views.py:112 | `replace('_', ' ')` swaps exactly the underscores and keeps the length |
| IndexViews.TitleChars | workwise/index/views.py:112 | `title()` upper-cases a letter that opens a word, lower-cases the other letters and keeps every other character |
| IndexViews.FormatLabelChars | workwise/index/views.py:111-112 | each label position: an underscore became a space; a letter is upper case exactly when it starts the label or follows a non-letter; anything else is unchanged |
| IndexViews.LabelRoundTrip | workwise/index/views.py:111-112 | lower-casing a label and turning spaces back into underscores recovers the stored slug |
| IndexViews.FormatLabelIdempotent | workwise/index/views.py:111-112 | labelling a label changes nothing |
| IndexViews.DaysRemaining | workwise/index/views.py:329 | days remaining is 0 exactly when the deadline is today or past; otherwise it is the exact number of days to the deadline |
| IndexViews.DaysRemainingCountsDown | workwise/index/views.py:329 | days remaining never grows as time passes, and drops by at most one per day |
| Catalog.DepartmentsOnlyForIndustries | workwise/employer_profile/views.py:130-172 | every key of DEPARTMENTS is one of the INDUSTRIES |
| Catalog.FormDepartmentsListed | workwise/employer_profile/views.py:130-179 | the views' choice lists have a department list only for listed industries |
| JobForm.NamesDistinct | workwise/employer_profile/views.py:244-251 | the 23 POST keys are distinct, so the submission is a map from fields |
| JobForm.Values | workwise/employer_profile/views.py:243-252 | the stripped submission has every field; every value is stripped, and a missing key reads as empty |
| JobForm.ExtractValues | workwise/employer_profile/views.py:243-252 | the reading loop produces exactly the stripped submission |
| JobForm.JobErrorsEmpty | workwise/employer_profile/views.py:387-388 | the error dictionary is empty exactly when no field breaks its rule |
| JobForm.ContactRules | workwise/employer_profile/views.py:254-282 | the email, deadline and title pass exactly when: the address is given and validates; the deadline parses and is not before now; the title has 1 to 200 characters |
| JobForm.CategoryRules | workwise/employer_profile/views.py:284-298 | industry, department, work type and gender pass exactly when: each is a listed choice; the department is given; the department belongs to the industry's list when the industry has one |
| JobForm.ExperienceRules | workwise/employer_profile/views.py:300-316 | the experience fields pass exactly when the level is listed and, for any level but "intern", 0 ≤ min ≤ max |
| JobForm.SalaryRules | workwise/employer_profile/views.py:318-338 | the salary fields pass exactly when the type is listed; "fixed" needs max ≥ 0, and "negotiable" needs 0 ≤ min < max |
| JobForm.CountRules | workwise/employer_profile/views.py:340-351 | the count and frequency pass exactly when the count is an integer ≥ 1 and the frequency is listed |
| JobForm.ListRules | workwise/employer_profile/views.py:353-359 | the four list fields pass exactly when each holds a comma |
| JobForm.LocationRules | workwise/employer_profile/views.py:361-365 | the location fields pass exactly when the type is listed and the address is given |
| JobForm.DescriptionRules | workwise/employer_profile/views.py:367-385 | the description and map pass exactly when the description has at least 50 words and the map holds coordinates within ±90/±180 |
| JobForm.PassesIffAcceptable | workwise/employer_profile/views.py:254-388 | the field checks accept exactly the submissions that meet every group's rule, stated without messages |
| JobForm.CheckContact | workwise/employer_profile/views.py:254-282 | steps 2-4 leave exactly the errors the rules give the first three fields |
| JobForm.CheckIndustry | workwise/employer_profile/views.py:284-292 | step 5 adds exactly the industry and department errors |
| JobForm.CheckWorkType | workwise/employer_profile/views.py:294-298 | step 6 adds exactly the work-type and gender errors |
| JobForm.CheckExperience | workwise/employer_profile/views.py:300-316 | step 7 adds exactly the experience errors, both bounds together |
| JobForm.CheckSalary | workwise/employer_profile/views.py:318-338 | step 8 adds exactly the salary errors |
| JobForm.CheckCount | workwise/employer_profile/views.py:340-351 | step 9 and the frequency check add exactly their errors |
| JobForm.CheckLists | workwise/employer_profile/views.py:353-359 | the loop over the four list fields adds exactly their errors |
| JobForm.CheckLocation | workwise/employer_profile/views.py:361-365 | step 11 adds exactly the location-type and address errors |
| JobForm.CheckDescription | workwise/employer_profile/views.py:367-372 | step 12 adds exactly the description error |
| JobForm.CheckMapLocation | workwise/employer_profile/views.py:374-385 | the map check adds exactly the map-location error |
| JobForm.ValidateJob | workwise/employer_profile/views.py:254-385 | the whole sequence of checks builds exactly the rules' error dictionary; `edit_job` repeats it at lines 542-674 |
| JobForm.DeadlineToday | workwise/employer_profile/views.py:264-275 | a deadline of today's date is refused as past at any moment after midnight, and accepted only at midnight exactly |
| JobForm.ShortDescriptionRejected | workwise/employer_profile/views.py:367-372 | a description of at most 98 characters cannot hold 50 words and is always refused |
| JobForm.UnknownIndustryDepartmentUnchecked | workwise/employer_profile/views.py:284-292 | with an unlisted industry and a non-empty department, only the industry gets an error; the department is not checked against any list |
| JobForm.ExperienceErrorsPaired | workwise/employer_profile/views.py:300-316 | min and max are refused together with the same message, and never for "intern" |
| JobForm.SalaryErrorsPaired | workwise/employer_profile/views.py:318-338 | a refused minimum always comes with a refused maximum; a maximum refused alone means a fixed salary |
| JobViews.ListValue | workwise/employer_profile/views.py:406-409 | a list column has one item more than its value has commas, so two or more exactly when it has a comma; no item holds a comma or has outer whitespace |
| JobViews.ShownListValue | workwise/employer_profile/views.py:722-725 | reading back the edit form's `', '.join(items)` gives the same stripped, comma-free items |
| JobViews.ListShownRoundTrip | workwise/employer_profile/views.py:722-725 | a saved list of two or more items, shown in the edit form and submitted unchanged, passes the list rule and is stored as the same items, empty items at either end included |
| JobViews.SavedJobWellFormed | workwise/employer_profile/views.py:388-416 | every job the form writes satisfies the form's rules column by column (each choice column a listed choice, the numbers and lists within their rules), and its title, description, department and address columns are the submitted values |
| JobViews.NewJob | workwise/employer_profile/views.py:389-415 | a created post belongs to the employer, is active, is not held for review, and stores an in-range point |
| JobViews.EditedJob | workwise/employer_profile/views.py:676-701 | an edit replaces the form's columns and stores the submitted location document; nothing else changes |
| JobViews.MissingDetails | workwise/employer_profile/views.py:193-206 | nothing is missing exactly when a profile exists with a logo, size, founded date, phone and address; with no profile, all five are listed in the view's order |
| JobViews.VerificationMessage | workwise/employer_profile/views.py:216-221 | an unverified employer sees the pending message exactly when a certificate is on file, otherwise the upload request |
| JobViews.SavedProfileUnblocks | workwise/employer_profile/views.py:193-209 | a profile with a logo whose details passed the details form never blocks `job_create` for missing details |
| JobViews.JobCreate | workwise/employer_profile/views.py:183-423 | the view answers exactly as `job_create` specifies: login, blocked (missing details or unverified), premium redirect, empty form, created post, or the form with its errors |
| JobViews.SubmitCreate | workwise/employer_profile/views.py:242-423 | a passing POST creates the post; any other POST returns the form with its errors and stripped values |
| JobViews.EditJob | workwise/employer_profile/views.py:517-737 | the view answers exactly as `edit_job` specifies |
| JobViews.CreatedOnlyWhenAllowed | workwise/employer_profile/views.py:183-417 | a post is created only for a signed-in employer who is complete, verified and premium, and whose POST passes every check; the post is theirs, active, not under review and well formed |
| JobViews.EditKeepsIdentity | workwise/employer_profile/views.py:676-702 | a saved edit is the owner's own post; it keeps its id, owner, creation time and moderation flags, and its columns are well formed |
| JobViews.EditOfOthersForbidden | workwise/employer_profile/views.py:525-526 | another employer's post is refused whatever the request carries |
| JobViews.CreateAndEditAgree | workwise/employer_profile/views.py:531-674 | past the gates, creating and editing accept the same submissions and answer a rejected one with the same errors |
| ManageJobs.RankIsStatusPlace | workwise/employer_profile/views.py:437-453 | the `status_rank` the query sorts by is the shown status's place (active 0, deactivated 1, expired 2); the default rank 3 never applies |
| ManageJobs.ListingGroupsByStatus | workwise/employer_profile/views.py:453 | in query order, active posts come first, then deactivated, then expired; within one status the newer post comes first |
| ManageJobs.RowMeaning | workwise/employer_profile/views.py:461-467 | active means switched on with days left ≥ 0, expired means switched on with days left < 0, deactivated means switched off; positive days left agree with the job page's count, which shows 0 for an expired post |
| ManageJobs.ListRows | workwise/employer_profile/views.py:483-505 | the loop builds one row per post, in order, with its status and signed days left |
| ManageJobs.RowsGrouped | workwise/employer_profile/views.py:483-505 | rows built from the query order keep the status grouping |
| Premium.AddOneMonth | workwise/employer_profile/views.py:1234-1242 | one month later is a valid later date-time: same time of day, the day cut to the month's length, and no result past year 9999 |
| Premium.AddOneMonthIsNextMonth | workwise/employer_profile/views.py:1234-1242 | one month on lands in the next calendar month, with December wrapping to January |
| Premium.EmployerPremium.Subscribe | workwise/employer_profile/views.py:1238-1243 | subscribing turns on both flags, records the start and sets the end one month on, so the tier is active at that moment; on overflow nothing is saved |
| Premium.ActiveEarlier | workwise/employer_profile/views.py:1210-1215 | an entitlement that holds at some instant held at every earlier instant |
| Premium.ExpiredAfterEnd | workwise/employer_profile/views.py:1210-1215 | once the end has passed, the tier is inactive whatever the flags say |
| Profile.Completeness | workwise/employer_profile/views.py:89-105 | the percentage is between 0 and 100 in steps of 25; it is 100 exactly when all four checks hold and 0 exactly when none does or there is no profile |
| Profile.CompletenessStep | workwise/employer_profile/views.py:89-105 | between any two profiles, or none and a profile, the percentage changes by exactly 25 per check gained or lost |
| Profile.PasswordPatternIsRule | workwise/employer_profile/views.py:834-835 | on a stripped password the regex accepts exactly: 6 to 16 characters on one line, a digit, and a character that is neither a word character nor whitespace |
| Profile.PasswordPatternTrailingNewline | workwise/employer_profile/views.py:834-835 | unstripped, `$` also lets one trailing newline through |
| Profile.PasswordErrors | workwise/employer_profile/views.py:829-842 | each of the three password fields has an error exactly when its own check fails |
| Profile.PasswordChangeAccepted | workwise/employer_profile/views.py:829-849 | a password change goes through exactly when the old password matches, the new one meets the rule and both copies agree |
| Profile.PhoneValidIsStripped | workwise/employer_profile/views.py:875 | an accepted phone number is non-empty and already stripped |
| Profile.PhoneValidIsRegex | workwise/employer_profile/views.py:875 | the phone rule accepts exactly the values that `\d{10,15}` matches in full, read as a digit-by-digit matcher of the quantifier |
| Profile.DigitRepeatIsRun | workwise/employer_profile/views.py:875 | a full match of the quantifier `\d{lo,hi}` is a run of digits whose length lies between lo and hi |
| Profile.UrlPatternIsScheme | workwise/employer_profile/views.py:885 | `^https?://` accepts exactly the values that start with "http://" or "https://" |
| Profile.CheckBasics | workwise/employer_profile/views.py:858-880 | the size, founded-date, phone and address checks leave exactly their errors |
| Profile.CheckWebAddresses | workwise/employer_profile/views.py:882-886 | the loop over the three web addresses adds exactly their errors |
| Profile.CheckAbout | workwise/employer_profile/views.py:888-892 | the description check adds exactly its error |
| Profile.ValidateDetails | workwise/employer_profile/views.py:852-892 | the details checks build exactly the rules' error dictionary |
| Profile.SaveDetails | workwise/employer_profile/views.py:895-903 | saving the details writes the eight submitted columns, the founded date as parsed, and keeps the logo and certificate |
| Profile.SavedDetailsValid | workwise/employer_profile/views.py:894-903 | saved details have a size, an address, a founded date not in the future, a valid phone, http(s) web addresses and a description of at least 20 characters |

## Left out

- The similarity score (rapidfuzz `token_sort_ratio` on lower-cased strings) is not modelled. It is a foreign library, so the search takes it as a parameter returning 0 to 100.
- The query behind the search is not modelled: active postings, not under review, deadline not passed, joined with the company. The search takes its result as the list of postings. The GET branch's newest-first listing, pagination and the saved-job ids are ORM and rendering work.
- `render`, `redirect`, `messages`, pagination (12 and 25 per page), `send_mail` and file uploads are not modelled. Uploads covers the logo, certificate and cover letter and their size and type checks. All of these are I/O.
- Library parses enter as their results: `validate_email`, `datetime.strptime`, `int()`, `Decimal()`, `json.loads` and `float()`. `check_password` and `make_password` enter as a verdict. `datetime.today()` and `timezone.now()` enter as parameters.
- Decimal infinities and the float rounding of coordinates are not modelled. Salaries and coordinates are exact reals.
- `title()` is read on ASCII characters. Python also applies it to other scripts' case pairs, which the stored choices never contain.
- Profile.PasswordPattern: `\d` and `\w` are read on ASCII characters, while Python's `re` reads them on Unicode. So a password with a non-ASCII letter as its only non-alphanumeric character, such as "abcdé1", passes here but is rejected by the view, and Profile.PasswordErrors and Profile.PasswordChangeAccepted inherit the difference. Unicode's letter and digit tables are not modelled.
- Profile.PhoneValid: `\d` is read on ASCII digits, so a phone number written in another script's digits, such as ten Arabic-Indic digits, is rejected here but accepted by the view. Unicode's digit table is not modelled.
- The POST is read as a map from the 23 field names. A key outside the form is never read.
- Not modelled:
  - the rendering of numbers, dates and the map document in the edit form (only the list fields' `', '.join` is modelled);
  - `deactivate_job`;
  - the `applications_count` annotation;
  - `rank_applications`, whose source is not part of this model;
  - the applications sort;
  - the dashboard's chart counts;
  - the `home` top-8 aggregates.
- The session's `employer_id` is an integer. The id 0 counts as signed out, because `if not emp_id` treats it as falsy.
- The form checks are written against a `Choices` record of choice lists. The views use the lists of `employer_profile/views.py` (`Catalog.FormChoices`). The department table is a function from industry to its list.
- JobViews.ListShownRoundTrip: the round trip is stated for lists of two or more items. A one-item list cannot come from the form, whose list rule demands a comma, and would be shown without one.
- Premium.EmployerPremium.Subscribe: date-times are naive UTC calendar values. Time zones and leap seconds are not modelled.
