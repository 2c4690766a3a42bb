/**
 * The employer's company profile (employer_profile/views.py): the
 * completeness percentage on the dashboard, and the rules of profile_manage
 * for a new password, a phone number and the optional web addresses, with
 * the details form that applies the last two.
 *
 * `\d` and `\w` are read on ASCII characters; `\s` is str.isspace().
 * Python's `re` reads them on Unicode, so for a password or phone number
 * with characters outside ASCII the two can differ: a non-ASCII letter such
 * as 'é' counts as special here but is a word character in Python, and
 * digits of other scripts satisfy `\d` in Python but not PhoneValid.
 */
module Profile {
  import opened Text
  import opened Wrappers

  /** The profile columns these rules read. A file field holds a flag: uploaded or not. */
  datatype CompanyProfile = CompanyProfile(
    logo: bool,
    certificate: bool,
    companySize: string,
    foundedDate: Option<int>,
    phoneNumber: string,
    address: string,
    website: string,
    facebook: string,
    linkedin: string,
    description: string)

  // ---------------------------------------------------------------- completeness

  /** The dashboard's four checks: description, logo, website, phone number. */
  function DoneCount(cp: Option<CompanyProfile>): (n: nat)
    ensures n <= 4
  {
    match cp
    case None => 0
    case Some(p) =>
      (if p.description != [] then 1 else 0) + (if p.logo then 1 else 0)
      + (if p.website != [] then 1 else 0) + (if p.phoneNumber != [] then 1 else 0)
  }

  /**
   * `int(done / 4 * 100)`; with four checks the float is exact, so the
   * percentage moves in steps of 25.
   */
  function Completeness(cp: Option<CompanyProfile>): (pct: int)
    ensures 0 <= pct <= 100 && pct % 25 == 0
    ensures pct == 100 <==>
      cp.Some? && cp.value.description != [] && cp.value.logo && cp.value.website != [] && cp.value.phoneNumber != []
    ensures pct == 0 <==>
      cp.None? || (cp.value.description == [] && !cp.value.logo && cp.value.website == [] && cp.value.phoneNumber == [])
  {
    DoneCount(cp) * 100 / 4
  }

  /**
   * Each check is worth exactly 25 points: between any two states of the
   * profile (including none at all) the percentage moves by 25 per check
   * filled in or cleared.
   */
  lemma CompletenessStep(before: Option<CompanyProfile>, after: Option<CompanyProfile>)
    ensures Completeness(after) - Completeness(before) == 25 * (DoneCount(after) - DoneCount(before))
  {
  }

  // ---------------------------------------------------------------- password

  /** `[^\w\s]`: neither a word character nor whitespace. */
  predicate IsSpecial(c: char) {
    !IsWordChar(c) && !IsSpace(c)
  }

  /** How far `.` can reach from the start: the characters before the first newline. */
  function LineLength(s: string): (k: nat)
    ensures k <= |s| && '\n' !in s[..k]
    ensures k < |s| ==> s[k] == '\n'
  {
    if s == [] || s[0] == '\n' then 0 else 1 + LineLength(s[1..])
  }

  /**
   * `re.match(r'^(?=.*\d)(?=.*[^\w\s]).{6,16}$', s)`: each look-ahead finds
   * its character before the first newline; `.{6,16}` takes 6 to 16
   * non-newline characters and `$` then sits at the end or just before a
   * final newline.
   */
  predicate PasswordPattern(s: string) {
    && (exists i :: 0 <= i < LineLength(s) && IsDigit(s[i]))
    && (exists i :: 0 <= i < LineLength(s) && IsSpecial(s[i]))
    && (exists n :: 6 <= n <= 16 && n <= LineLength(s) && DollarAt(s, n))
  }

  /** Where `$` matches: at the very end, or just before a final newline. */
  predicate DollarAt(s: string, n: int) {
    n == |s| || (0 <= n == |s| - 1 && s[n] == '\n')
  }

  /** The rule in words: 6 to 16 characters on one line, a digit and a special character. */
  predicate PasswordRule(s: string) {
    && 6 <= |s| <= 16
    && '\n' !in s
    && (exists i :: 0 <= i < |s| && IsDigit(s[i]))
    && (exists i :: 0 <= i < |s| && IsSpecial(s[i]))
  }

  /**
   * The view strips the new password first, so no trailing newline reaches
   * the pattern and it accepts exactly the passwords the rule describes.
   */
  lemma {:induction false} PasswordPatternIsRule(s: string)
    requires Stripped(s)
    ensures PasswordPattern(s) <==> PasswordRule(s)
  {
    var k := LineLength(s);
    if PasswordPattern(s) {
      var n :| 6 <= n <= 16 && n <= k && DollarAt(s, n);
      assert n == |s|;
      assert s[..k] == s;
      var i :| 0 <= i < k && IsDigit(s[i]);
      var j :| 0 <= j < k && IsSpecial(s[j]);
      assert PasswordRule(s);
    }
    if PasswordRule(s) {
      assert k == |s|;
      var i :| 0 <= i < |s| && IsDigit(s[i]);
      var j :| 0 <= j < |s| && IsSpecial(s[j]);
      assert 0 <= i < k && IsDigit(s[i]);
      assert 0 <= j < k && IsSpecial(s[j]);
      assert 6 <= |s| <= 16 && |s| <= k && DollarAt(s, |s|);
    }
  }

  /** Unstripped, `$` also lets a single trailing newline through. */
  lemma {:induction false} PasswordPatternTrailingNewline(s: string)
    requires PasswordRule(s)
    ensures PasswordPattern(s + "\n")
  {
    var t := s + "\n";
    var k := LineLength(t);
    assert t[..|s|] == s && t[|s|] == '\n';
    assert k == |s|;
    assert DollarAt(t, |s|);
    assert t[..k] == s;
    var i :| 0 <= i < |s| && IsDigit(s[i]);
    assert t[i] == s[i];
    var j :| 0 <= j < |s| && IsSpecial(s[j]);
    assert t[j] == s[j];
  }

  /** The password form's three fields. */
  datatype PasswordField = OldPassword | NewPassword | ConfirmPassword

  const IncorrectPassword: string := "Incorrect current password."
  const PasswordRuleMessage: string := "Must be 6–16 chars, include at least one number and one special character."
  const PasswordMismatch: string := "Does not match the new password."

  /**
   * The password form's error map. `oldMatches` is check_password's verdict
   * on the stripped current password; both new fields arrive stripped.
   */
  function PasswordErrors(oldMatches: bool, newPass: string, confirm: string): (errors: map<PasswordField, string>)
    ensures OldPassword in errors <==> !oldMatches
    ensures NewPassword in errors <==> !PasswordPattern(newPass)
    ensures ConfirmPassword in errors <==> newPass != confirm
  {
    var e0: map<PasswordField, string> := map[];
    var e1 := if oldMatches then e0 else e0[OldPassword := IncorrectPassword];
    var e2 := if PasswordPattern(newPass) then e1 else e1[NewPassword := PasswordRuleMessage];
    if newPass == confirm then e2 else e2[ConfirmPassword := PasswordMismatch]
  }

  /** A password change goes through exactly when the rule holds and both copies agree. */
  lemma PasswordChangeAccepted(oldMatches: bool, newPass: string, confirm: string)
    requires Stripped(newPass)
    ensures PasswordErrors(oldMatches, newPass, confirm) == map[]
      <==> oldMatches && PasswordRule(newPass) && confirm == newPass
  {
    PasswordPatternIsRule(newPass);
    var e := PasswordErrors(oldMatches, newPass, confirm);
    if e == map[] {
      assert OldPassword !in e && NewPassword !in e && ConfirmPassword !in e;
    }
  }

  // ---------------------------------------------------------------- phone and web addresses

  /** `re.fullmatch(r'\d{10,15}', v)`. */
  predicate PhoneValid(v: string) {
    10 <= |v| <= 15 && forall i :: 0 <= i < |v| ==> IsDigit(v[i])
  }

  /** A valid phone number is a non-empty, already stripped value. */
  lemma PhoneValidIsStripped(v: string)
    requires PhoneValid(v)
    ensures v != [] && Stripped(v) && Strip(v) == v
  {
    assert !IsSpace(v[0]) && !IsSpace(v[|v| - 1]);
  }

  /**
   * The regex quantifier `\d{lo,hi}` matched against the whole of `v`, one
   * digit at a time: the empty rest is accepted once `lo` digits are used up,
   * and no digit may be taken once `hi` are.
   */
  predicate DigitRepeat(v: string, lo: int, hi: int)
    decreases |v|
  {
    if v == [] then lo <= 0 <= hi
    else 0 < hi && IsDigit(v[0]) && DigitRepeat(v[1..], lo - 1, hi - 1)
  }

  /** A full match of `\d{lo,hi}` is a run of digits whose length lies in [lo, hi]. */
  lemma {:induction false} DigitRepeatIsRun(v: string, lo: int, hi: int)
    ensures DigitRepeat(v, lo, hi) <==> lo <= |v| <= hi && forall i :: 0 <= i < |v| ==> IsDigit(v[i])
    decreases |v|
  {
    if v != [] {
      DigitRepeatIsRun(v[1..], lo - 1, hi - 1);
      if forall i :: 0 <= i < |v| ==> IsDigit(v[i]) {
        assert forall i :: 0 <= i < |v[1..]| ==> IsDigit(v[1..][i]) by {
          forall i | 0 <= i < |v[1..]| ensures IsDigit(v[1..][i]) {
            assert v[1..][i] == v[i + 1];
          }
        }
      }
      if IsDigit(v[0]) && forall i :: 0 <= i < |v[1..]| ==> IsDigit(v[1..][i]) {
        forall i | 0 <= i < |v| ensures IsDigit(v[i]) {
          if i > 0 { assert v[i] == v[1..][i - 1]; }
        }
      }
    }
  }

  /** PhoneValid accepts exactly the values that `\d{10,15}` matches in full. */
  lemma PhoneValidIsRegex(v: string)
    ensures PhoneValid(v) <==> DigitRepeat(v, 10, 15)
  {
    DigitRepeatIsRun(v, 10, 15);
  }

  /** `re.match(r'^https?://', v)`: "http", then "://" with or without an "s" before it. */
  predicate UrlPattern(v: string) {
    StartsWith(v, "http") && (StartsWith(v[4..], "://") || StartsWith(v[4..], "s://"))
  }

  /** A prefix made of two pieces is matched one piece after the other. */
  lemma {:induction false} StartsWithConcat(v: string, p: string, q: string)
    ensures StartsWith(v, p + q) <==> StartsWith(v, p) && StartsWith(v[|p|..], q)
  {
    if StartsWith(v, p) && StartsWith(v[|p|..], q) {
      assert v[..|p + q|] == v[..|p|] + v[|p|..][..|q|];
    }
    if StartsWith(v, p + q) {
      assert v[..|p|] == (p + q)[..|p|];
      assert v[|p|..][..|q|] == (p + q)[|p|..];
    }
  }

  /** The pattern accepts exactly the values that begin with one of the two schemes. */
  lemma UrlPatternIsScheme(v: string)
    ensures UrlPattern(v) <==> StartsWith(v, "http://") || StartsWith(v, "https://")
  {
    assert "http://" == "http" + "://";
    assert "https://" == "http" + "s://";
    StartsWithConcat(v, "http", "://");
    StartsWithConcat(v, "http", "s://");
  }

  /** An optional address is an error only when it is given and has no http/https scheme. */
  predicate UrlError(v: string) {
    v != [] && !UrlPattern(v)
  }

  // ---------------------------------------------------------------- details form

  datatype DetailField =
    CompanySize | FoundedDate | PhoneNumber | Address | Website | Facebook | Linkedin | Description

  const DetailFields: set<DetailField> :=
    {CompanySize, FoundedDate, PhoneNumber, Address, Website, Facebook, Linkedin, Description}

  /** The optional web-address fields, in the order the view checks them. */
  const UrlFields: seq<DetailField> := [Website, Facebook, Linkedin]

  const Required: string := "Required."
  const FutureDate: string := "Cannot be in future."
  const InvalidDate: string := "Invalid date."
  const PhoneMessage: string := "10–15 digits required."
  const UrlMessage: string := "Must start with http:// or https://"
  const ShortDescription: string := "At least 20 characters."

  /**
   * The stripped details submission: `values` holds every field, and
   * `founded` is strptime's reading of the founded date (None when it fails).
   */
  predicate HasDetailFields(values: map<DetailField, string>) {
    forall f: DetailField :: f in values
  }

  /** The error, if any, that the details form puts on field `f`. */
  function DetailError(f: DetailField, values: map<DetailField, string>, founded: Option<int>, today: int): Option<string>
    requires HasDetailFields(values)
  {
    var v := values[f];
    match f
    case CompanySize => if v == [] then Some(Required) else None
    case FoundedDate =>
      if v == [] then Some(Required)
      else if founded.None? then Some(InvalidDate)
      else if founded.value > today then Some(FutureDate)
      else None
    case PhoneNumber => if PhoneValid(v) then None else Some(PhoneMessage)
    case Address => if v == [] then Some(Required) else None
    case Description =>
      if v == [] then Some(Required) else if |v| < 20 then Some(ShortDescription) else None
    case _ => if UrlError(v) then Some(UrlMessage) else None
  }

  function DetailErrors(values: map<DetailField, string>, founded: Option<int>, today: int): map<DetailField, string>
    requires HasDetailFields(values)
  {
    map f: DetailField | f in DetailFields && DetailError(f, values, founded, today).Some?
      :: DetailError(f, values, founded, today).value
  }

  /** Where the view checks each field: 0 for the first check, 7 for the last. */
  function CheckOrder(f: DetailField): nat {
    match f
    case CompanySize => 0
    case FoundedDate => 1
    case PhoneNumber => 2
    case Address => 3
    case Website => 4
    case Facebook => 5
    case Linkedin => 6
    case Description => 7
  }

  /** `errors` holds exactly the errors of the first `n` checks. */
  predicate DetailsAgree(errors: map<DetailField, string>, n: nat,
                         values: map<DetailField, string>, founded: Option<int>, today: int)
    requires HasDetailFields(values)
  {
    forall f: DetailField :: Lookup(errors, f) == if CheckOrder(f) < n then DetailError(f, values, founded, today) else None
  }

  lemma AllDetailFields(f: DetailField)
    ensures f in DetailFields
  {
    assert f.CompanySize? || f.FoundedDate? || f.PhoneNumber? || f.Address?
        || f.Website? || f.Facebook? || f.Linkedin? || f.Description?;
  }

  lemma DetailsAgreeAll(errors: map<DetailField, string>, values: map<DetailField, string>, founded: Option<int>, today: int)
    requires HasDetailFields(values) && DetailsAgree(errors, 8, values, founded, today)
    ensures errors == DetailErrors(values, founded, today)
  {
    var spec := DetailErrors(values, founded, today);
    forall f: DetailField ensures f in errors <==> f in spec {
      AllDetailFields(f);
      assert Lookup(errors, f) == DetailError(f, values, founded, today);
    }
    forall f | f in errors ensures errors[f] == spec[f] {
      AllDetailFields(f);
      assert Lookup(errors, f) == DetailError(f, values, founded, today);
    }
  }

  /** Recording the next check keeps the error map in step with the rules. */
  lemma DetailsAgreeStep(errors: map<DetailField, string>, after: map<DetailField, string>,
                         f: DetailField, n: nat, values: map<DetailField, string>, founded: Option<int>, today: int)
    requires n == CheckOrder(f)
    requires HasDetailFields(values) && DetailsAgree(errors, n, values, founded, today)
    requires after == Record(errors, f, DetailError(f, values, founded, today))
    ensures DetailsAgree(after, n + 1, values, founded, today)
  {
    forall g: DetailField
      ensures Lookup(after, g) == if CheckOrder(g) < n + 1 then DetailError(g, values, founded, today) else None
    {
      if g != f {
        assert CheckOrder(g) != CheckOrder(f);
        assert Lookup(after, g) == Lookup(errors, g);
      }
    }
  }

  /** One pass of the loop over the web-address fields. */
  lemma UrlCheckStep(errors: map<DetailField, string>, after: map<DetailField, string>, k: int,
                     values: map<DetailField, string>, founded: Option<int>, today: int)
    requires 0 <= k < |UrlFields|
    requires HasDetailFields(values) && DetailsAgree(errors, 4 + k, values, founded, today)
    requires after == if UrlError(values[UrlFields[k]]) then errors[UrlFields[k] := UrlMessage] else errors
    ensures DetailsAgree(after, 5 + k, values, founded, today)
  {
    var f := UrlFields[k];
    assert CheckOrder(f) == 4 + k && (f.Website? || f.Facebook? || f.Linkedin?);
    DetailsAgreeStep(errors, after, f, 4 + k, values, founded, today);
  }

  /** The loop over the optional web-address fields. */
  method CheckWebAddresses(values: map<DetailField, string>, errors0: map<DetailField, string>, ghost founded: Option<int>, ghost today: int)
    returns (errors: map<DetailField, string>)
    requires HasDetailFields(values) && DetailsAgree(errors0, 4, values, founded, today)
    ensures DetailsAgree(errors, 7, values, founded, today)
  {
    errors := errors0;
    for k := 0 to |UrlFields|
      invariant DetailsAgree(errors, 4 + k, values, founded, today)
    {
      var fld := UrlFields[k];
      ghost var prev := errors;
      var v := values[fld];
      if v != [] && !UrlPattern(v) {
        errors := errors[fld := UrlMessage];
      }
      UrlCheckStep(prev, errors, k, values, founded, today);
    }
  }

  /** The first four checks of the details section: size, founded date, phone and address. */
  method CheckBasics(values: map<DetailField, string>, founded: Option<int>, today: int)
    returns (errors: map<DetailField, string>)
    requires HasDetailFields(values)
    ensures DetailsAgree(errors, 4, values, founded, today)
  {
    errors := map[];
    ghost var prev := errors;
    if values[CompanySize] == [] {
      errors := errors[CompanySize := Required];
    }
    DetailsAgreeStep(prev, errors, CompanySize, 0, values, founded, today);
    prev := errors;
    var fd := values[FoundedDate];
    if fd == [] {
      errors := errors[FoundedDate := Required];
    } else if founded.None? {
      errors := errors[FoundedDate := InvalidDate];
    } else if founded.value > today {
      errors := errors[FoundedDate := FutureDate];
    }
    DetailsAgreeStep(prev, errors, FoundedDate, 1, values, founded, today);
    prev := errors;
    if !PhoneValid(values[PhoneNumber]) {
      errors := errors[PhoneNumber := PhoneMessage];
    }
    DetailsAgreeStep(prev, errors, PhoneNumber, 2, values, founded, today);
    prev := errors;
    if values[Address] == [] {
      errors := errors[Address := Required];
    }
    DetailsAgreeStep(prev, errors, Address, 3, values, founded, today);
  }

  /** The last check of the details section: the company description. */
  method CheckAbout(values: map<DetailField, string>, errors0: map<DetailField, string>, ghost founded: Option<int>, ghost today: int)
    returns (errors: map<DetailField, string>)
    requires HasDetailFields(values) && DetailsAgree(errors0, 7, values, founded, today)
    ensures DetailsAgree(errors, 8, values, founded, today)
  {
    errors := errors0;
    var desc := values[Description];
    if desc == [] {
      errors := errors[Description := Required];
    } else if |desc| < 20 {
      errors := errors[Description := ShortDescription];
    }
    DetailsAgreeStep(errors0, errors, Description, 7, values, founded, today);
  }

  /**
   * The details section of profile_manage, check by check as the view runs
   * them.
   */
  method ValidateDetails(values: map<DetailField, string>, founded: Option<int>, today: int)
    returns (errors: map<DetailField, string>)
    requires HasDetailFields(values)
    ensures errors == DetailErrors(values, founded, today)
  {
    errors := CheckBasics(values, founded, today);
    errors := CheckWebAddresses(values, errors, founded, today);
    errors := CheckAbout(values, errors, founded, today);
    DetailsAgreeAll(errors, values, founded, today);
  }

  /** What a successful details submission writes; logo and certificate are left as they were. */
  function SaveDetails(p: CompanyProfile, values: map<DetailField, string>, founded: Option<int>, today: int): (saved: CompanyProfile)
    requires HasDetailFields(values) && DetailErrors(values, founded, today) == map[]
    ensures saved.logo == p.logo && saved.certificate == p.certificate
    ensures saved.companySize == values[CompanySize] && saved.foundedDate == founded
    ensures saved.phoneNumber == values[PhoneNumber] && saved.address == values[Address]
    ensures saved.website == values[Website] && saved.facebook == values[Facebook]
    ensures saved.linkedin == values[Linkedin] && saved.description == values[Description]
  {
    p.(companySize := values[CompanySize], foundedDate := founded,
       phoneNumber := values[PhoneNumber], address := values[Address],
       website := values[Website], facebook := values[Facebook],
       linkedin := values[Linkedin], description := values[Description])
  }

  /** Every field a saved profile holds passed its rule. */
  lemma {:induction false} SavedDetailsValid(p: CompanyProfile, values: map<DetailField, string>, founded: Option<int>, today: int)
    requires HasDetailFields(values) && DetailErrors(values, founded, today) == map[]
    ensures var s := SaveDetails(p, values, founded, today);
      && s.companySize != [] && s.address != []
      && s.foundedDate.Some? && s.foundedDate.value <= today
      && PhoneValid(s.phoneNumber)
      && !UrlError(s.website) && !UrlError(s.facebook) && !UrlError(s.linkedin)
      && |s.description| >= 20
  {
    forall f: DetailField ensures DetailError(f, values, founded, today).None? {
      AllDetailFields(f);
      assert f !in DetailErrors(values, founded, today);
    }
    assert DetailError(CompanySize, values, founded, today).None?;
    assert DetailError(FoundedDate, values, founded, today).None?;
    assert DetailError(PhoneNumber, values, founded, today).None?;
    assert DetailError(Address, values, founded, today).None?;
    assert DetailError(Website, values, founded, today).None?;
    assert DetailError(Facebook, values, founded, today).None?;
    assert DetailError(Linkedin, values, founded, today).None?;
    assert DetailError(Description, values, founded, today).None?;
  }
}
