// StudentProfileAttributes: a student's profile (short name, emails, institute,
// nationality, gender, more-info text, picture key and modification time),
// its builder defaults and gender rule, the update reminder, the validation
// that skips unspecified fields, and the option-driven update.

module StudentProfileAttributes {
  import opened Common
  import opened Const
  import Streams

  /** The fields of a StudentProfileAttributes object. The builder never stores null. */
  datatype Profile = Profile(
    googleId: string,
    shortName: string,
    email: string,
    institute: string,
    nationality: string,
    gender: string,
    moreInfo: string,
    pictureKey: string,
    modifiedDate: Instant)

  const MALE: string := "male"
  const FEMALE: string := "female"
  const OTHER: string := "other"

  /** The package-private constructor: every text field "", gender "other", modified now. */
  function Defaults(googleId: string, now: Instant): (r: Profile)
    ensures r.googleId == googleId && r.modifiedDate == now && r.gender == OTHER
    ensures r.shortName == r.email == r.institute == r.nationality == r.moreInfo == r.pictureKey == ""
  {
    Profile(googleId, "", "", "", "", OTHER, "", "", now)
  }

  // ---------------------------------------------------------------------
  // The builder

  /** The SanitizationHelper functions the builder and sanitizeForSaving apply. */
  datatype Sanitizers = Sanitizers(
    name: string -> string,
    email: string -> string,
    title: string -> string,
    googleId: string -> string)

  /** The arguments of the builder's setters; null where a setter is given null. A setter
      that is not called leaves the field as a null argument would. */
  datatype BuilderArgs = BuilderArgs(
    shortName: Option<string>,
    email: Option<string>,
    institute: Option<string>,
    gender: Option<string>,
    nationality: Option<string>,
    moreInfo: Option<string>,
    pictureKey: Option<string>,
    modifiedDate: Option<Instant>)

  /** Builder.isGenderValid. */
  predicate IsGenderValid(g: Option<string>)
  {
    g == Some(MALE) || g == Some(FEMALE) || g == Some(OTHER)
  }

  /** Builder.withGender: a valid gender is kept, anything else (null included) becomes "other". */
  function GenderOrOther(g: Option<string>): (r: string)
    ensures r == MALE || r == FEMALE || r == OTHER
    ensures IsGenderValid(g) ==> Some(r) == g
    ensures !IsGenderValid(g) ==> r == OTHER
  {
    if IsGenderValid(g) then g.value else OTHER
  }

  /** The builder's setters applied to a profile: a null argument keeps the field, the short
      name and nationality go through sanitizeName, the email through sanitizeEmail, the
      institute through sanitizeTitle, the more-info text and picture key are kept as given,
      the gender follows withGender and a null modification time is the current instant. */
  function WithArgs(p: Profile, args: BuilderArgs, s: Sanitizers, now: Instant): (r: Profile)
    ensures r.googleId == p.googleId
    ensures r.shortName == (if args.shortName.Some? then s.name(args.shortName.value) else p.shortName)
    ensures r.email == (if args.email.Some? then s.email(args.email.value) else p.email)
    ensures r.institute == (if args.institute.Some? then s.title(args.institute.value) else p.institute)
    ensures r.nationality == (if args.nationality.Some? then s.name(args.nationality.value) else p.nationality)
    ensures r.gender == GenderOrOther(args.gender)
    ensures r.moreInfo == args.moreInfo.GetOr(p.moreInfo) && r.pictureKey == args.pictureKey.GetOr(p.pictureKey)
    ensures r.modifiedDate == args.modifiedDate.GetOr(now)
  {
    p.(shortName := if args.shortName.Some? then s.name(args.shortName.value) else p.shortName,
       email := if args.email.Some? then s.email(args.email.value) else p.email,
       institute := if args.institute.Some? then s.title(args.institute.value) else p.institute,
       gender := GenderOrOther(args.gender),
       nationality := if args.nationality.Some? then s.name(args.nationality.value) else p.nationality,
       moreInfo := args.moreInfo.GetOr(p.moreInfo),
       pictureKey := args.pictureKey.GetOr(p.pictureKey),
       modifiedDate := args.modifiedDate.GetOr(now))
  }

  /** builder(googleId).with...(args).build(): a null Google id fails the builder's assertion;
      otherwise the setters start from the defaults, so a null argument leaves "" (and
      gender "other"). */
  function Built(googleId: Option<string>, args: BuilderArgs, s: Sanitizers, now: Instant): (r: Outcome<Profile>)
    ensures r.Fail? <==> googleId.None?
    ensures r.Fail? ==> r.failure == AssertionFailure
    ensures r.Ok? ==> var p := r.value;
            p.googleId == googleId.value
            && (args.shortName.None? ==> p.shortName == "") && (args.email.None? ==> p.email == "")
            && (args.institute.None? ==> p.institute == "") && (args.nationality.None? ==> p.nationality == "")
            && (args.moreInfo.None? ==> p.moreInfo == "") && (args.pictureKey.None? ==> p.pictureKey == "")
            && (p.gender == MALE || p.gender == FEMALE || p.gender == OTHER)
            && (args.modifiedDate.None? ==> p.modifiedDate == now)
  {
    if googleId.None? then Fail(AssertionFailure)
    else Ok(WithArgs(Defaults(googleId.value, now), args, s, now))
  }

  /** A builder given no argument at all leaves exactly the constructor's defaults. */
  lemma BuiltWithoutArgumentsIsDefault(googleId: string, s: Sanitizers, now: Instant)
    ensures Built(Some(googleId), BuilderArgs(None, None, None, None, None, None, None, None), s, now)
            == Ok(Defaults(googleId, now))
  {
  }

  /** The setter arguments that rebuild a profile: every field, as getCopy passes them. */
  function ArgsOf(p: Profile): BuilderArgs
  {
    BuilderArgs(Some(p.shortName), Some(p.email), Some(p.institute), Some(p.gender),
                Some(p.nationality), Some(p.moreInfo), Some(p.pictureKey), Some(p.modifiedDate))
  }

  /** getCopy: the builder applied to every field again. */
  function Copy(p: Profile, s: Sanitizers, now: Instant): (r: Profile)
    ensures r.googleId == p.googleId && r.modifiedDate == p.modifiedDate
    ensures r.moreInfo == p.moreInfo && r.pictureKey == p.pictureKey
    ensures r.gender == GenderOrOther(Some(p.gender))
  {
    Built(Some(p.googleId), ArgsOf(p), s, now).value
  }

  /** A sanitizer that changes nothing the second time and keeps "" as it is. */
  ghost predicate IsStable(f: string -> string)
  {
    f("") == "" && forall x :: f(f(x)) == f(x)
  }

  /** A copy of a built profile equals it, provided every builder sanitizer is stable. */
  lemma CopyOfBuilt(googleId: string, args: BuilderArgs, s: Sanitizers, now: Instant, later: Instant)
    requires IsStable(s.name) && IsStable(s.email) && IsStable(s.title)
    ensures var p := Built(Some(googleId), args, s, now).value;
            Copy(p, s, later) == p
  {
  }

  // ---------------------------------------------------------------------
  // generateUpdateMessageForStudent

  /** StringHelper.countEmptyStrings over the five fields the reminder looks at (the institute
      is not one of them). */
  function CountEmpty(p: Profile): (n: nat)
    ensures n <= 5
  {
    (if p.shortName == "" then 1 else 0) + (if p.email == "" then 1 else 0)
    + (if p.nationality == "" then 1 else 0) + (if p.moreInfo == "" then 1 else 0)
    + (if p.pictureKey == "" then 1 else 0)
  }

  /** generateUpdateMessageForStudent: the generic reminder when two or more of the five fields
      are empty, the field's own reminder when exactly one is, and "" when none is. */
  function UpdateMessage(p: Profile): (m: string)
    ensures CountEmpty(p) > 1 ==> m == STUDENT_UPDATE_PROFILE
    ensures CountEmpty(p) == 1 && p.shortName == "" ==> m == STUDENT_UPDATE_PROFILE_SHORTNAME
    ensures CountEmpty(p) == 1 && p.email == "" ==> m == STUDENT_UPDATE_PROFILE_EMAIL
    ensures CountEmpty(p) == 1 && p.pictureKey == "" ==> m == STUDENT_UPDATE_PROFILE_PICTURE
    ensures CountEmpty(p) == 1 && p.moreInfo == "" ==> m == STUDENT_UPDATE_PROFILE_MOREINFO
    ensures CountEmpty(p) == 1 && p.nationality == "" ==> m == STUDENT_UPDATE_PROFILE_NATIONALITY
    ensures m == "" <==> CountEmpty(p) == 0
  {
    if CountEmpty(p) > 1 then STUDENT_UPDATE_PROFILE
    else if p.shortName == "" then STUDENT_UPDATE_PROFILE_SHORTNAME
    else if p.email == "" then STUDENT_UPDATE_PROFILE_EMAIL
    else if p.pictureKey == "" then STUDENT_UPDATE_PROFILE_PICTURE
    else if p.moreInfo == "" then STUDENT_UPDATE_PROFILE_MOREINFO
    else if p.nationality == "" then STUDENT_UPDATE_PROFILE_NATIONALITY
    else ""
  }

  /** The reminder does not depend on the institute, the gender or the Google id. */
  lemma UpdateMessageIgnoresOtherFields(p: Profile, q: Profile)
    requires p.(googleId := q.googleId, institute := q.institute, gender := q.gender,
                modifiedDate := q.modifiedDate) == q
    ensures UpdateMessage(p) == UpdateMessage(q)
  {
  }

  // ---------------------------------------------------------------------
  // getInvalidityInfo

  /** The FieldValidator checks a profile goes through; each returns "" or an error message. */
  datatype ProfileValidator = ProfileValidator(
    googleIdError: string -> string,
    personNameError: string -> string,
    emailError: string -> string,
    instituteNameError: string -> string,
    nationalityError: string -> string,
    genderError: string -> string)

  /** The checks getInvalidityInfo runs, in order: the Google id always, each of short name,
      email, institute and nationality only when not empty, the gender always. The more-info
      text and the modification time are not checked. */
  function Checks(p: Profile, v: ProfileValidator): (r: seq<string>)
    ensures 2 <= |r| <= 6
    ensures r[0] == v.googleIdError(p.googleId) && r[|r| - 1] == v.genderError(p.gender)
  {
    [v.googleIdError(p.googleId)]
    + (if p.shortName != "" then [v.personNameError(p.shortName)] else [])
    + (if p.email != "" then [v.emailError(p.email)] else [])
    + (if p.institute != "" then [v.instituteNameError(p.institute)] else [])
    + (if p.nationality != "" then [v.nationalityError(p.nationality)] else [])
    + [v.genderError(p.gender)]
  }

  /** getInvalidityInfo: the non-empty messages of the checks, in check order. */
  function InvalidityInfo(p: Profile, v: ProfileValidator): (errors: seq<string>)
    ensures forall e | e in errors :: e != "" && e in Checks(p, v)
    ensures forall e | e in Checks(p, v) && e != "" :: e in errors
    ensures v.googleIdError(p.googleId) != "" ==> errors != [] && errors[0] == v.googleIdError(p.googleId)
  {
    var errors := Streams.Filter(Checks(p, v), (m: string) => m != "");
    assert errors != [] ==> errors[0] in errors;
    errors
  }

  predicate IsValid(p: Profile, v: ProfileValidator)
  {
    InvalidityInfo(p, v) == []
  }

  /** A profile whose optional fields are all unspecified is valid exactly when its Google id
      and gender pass: empty fields are never reported. */
  lemma UnspecifiedFieldsAreAccepted(p: Profile, v: ProfileValidator)
    requires p.shortName == "" && p.email == "" && p.institute == "" && p.nationality == ""
    ensures IsValid(p, v) <==> v.googleIdError(p.googleId) == "" && v.genderError(p.gender) == ""
  {
    var checks := Checks(p, v);
    assert checks == [v.googleIdError(p.googleId)] + [v.genderError(p.gender)];
    Streams.FilterSnoc([v.googleIdError(p.googleId)], v.genderError(p.gender), (m: string) => m != "");
    Streams.FilterSnoc([], v.googleIdError(p.googleId), (m: string) => m != "");
    assert [] + [v.googleIdError(p.googleId)] == [v.googleIdError(p.googleId)];
  }

  /** The more-info text is never validated. */
  lemma MoreInfoIsNotValidated(p: Profile, v: ProfileValidator, text: string)
    ensures InvalidityInfo(p.(moreInfo := text), v) == InvalidityInfo(p, v)
  {
    assert Checks(p.(moreInfo := text), v) == Checks(p, v);
  }

  // ---------------------------------------------------------------------
  // update

  datatype ProfileField = ShortName | Email | Institute | Nationality | Gender | MoreInfo | PictureKey

  /** UpdateOptions: the Google id the update is for and one option per editable field. */
  datatype UpdateOptions = UpdateOptions(
    googleId: string,
    shortName: Option<string>,
    email: Option<string>,
    institute: Option<string>,
    nationality: Option<string>,
    gender: Option<string>,
    moreInfo: Option<string>,
    pictureKey: Option<string>)
  {
    function OptionOf(f: ProfileField): Option<string>
    {
      match f
      case ShortName => shortName
      case Email => email
      case Institute => institute
      case Nationality => nationality
      case Gender => gender
      case MoreInfo => moreInfo
      case PictureKey => pictureKey
    }
  }

  /** One call of an UpdateOptions builder setter, with its (possibly null) argument. */
  datatype Setter = Setter(field: ProfileField, value: Option<string>)

  /** The argument of the last setter call for `f`, if there is one. */
  function LastSet(setters: seq<Setter>, f: ProfileField): (r: Option<Option<string>>)
    ensures r.None? <==> forall i | 0 <= i < |setters| :: setters[i].field != f
    ensures r.Some? ==> exists i | 0 <= i < |setters| :: setters[i] == Setter(f, r.value)
                          && forall j | i < j < |setters| :: setters[j].field != f
    decreases |setters|
  {
    if |setters| == 0 then None
    else
      var last := setters[|setters| - 1];
      if last.field == f then Some(last.value)
      else
        var init := setters[..|setters| - 1];
        assert forall i | 0 <= i < |init| :: init[i] == setters[i];
        LastSet(init, f)
  }

  /** The options with the one option `f` set to `value`. */
  function WithOption(o: UpdateOptions, f: ProfileField, value: string): (r: UpdateOptions)
    ensures r.googleId == o.googleId
    ensures forall g :: r.OptionOf(g) == if g == f then Some(value) else o.OptionOf(g)
  {
    match f
    case ShortName => o.(shortName := Some(value))
    case Email => o.(email := Some(value))
    case Institute => o.(institute := Some(value))
    case Nationality => o.(nationality := Some(value))
    case Gender => o.(gender := Some(value))
    case MoreInfo => o.(moreInfo := Some(value))
    case PictureKey => o.(pictureKey := Some(value))
  }

  /** updateOptionsBuilder(googleId), the setter calls in order, then build(): a null Google id
      or a null setter argument fails the assertion; otherwise each option holds the argument
      of the last setter for its field, and the options without a setter stay absent. */
  function UpdateOptionsOf(googleId: Option<string>, setters: seq<Setter>): (r: Outcome<UpdateOptions>)
    ensures r.Fail? <==> googleId.None? || exists i | 0 <= i < |setters| :: setters[i].value.None?
    ensures r.Fail? ==> r.failure == AssertionFailure
    ensures r.Ok? ==> r.value.googleId == googleId.value
    ensures r.Ok? ==> forall f :: LastSet(setters, f).Some? ==> r.value.OptionOf(f) == LastSet(setters, f).value
    ensures r.Ok? ==> forall f :: LastSet(setters, f).None? ==> r.value.OptionOf(f).None?
    decreases |setters|
  {
    if googleId.None? then Fail(AssertionFailure)
    else if |setters| == 0 then Ok(UpdateOptions(googleId.value, None, None, None, None, None, None, None))
    else
      var init := setters[..|setters| - 1];
      var last := setters[|setters| - 1];
      var r := UpdateOptionsOf(googleId, init);
      assert forall i | 0 <= i < |init| :: init[i] == setters[i];
      if r.Fail? then r
      else if last.value.None? then Fail(AssertionFailure)
      else
        var o := WithOption(r.value, last.field, last.value.value);
        assert forall f | f != last.field :: LastSet(setters, f) == LastSet(init, f);
        Ok(o)
  }

  /** update(UpdateOptions): every present option replaces its field; the Google id and the
      modification time never change. */
  function Updated(p: Profile, opts: UpdateOptions): (r: Profile)
    ensures r.googleId == p.googleId && r.modifiedDate == p.modifiedDate
    ensures r.shortName == Fill(opts.shortName, p.shortName) && r.email == Fill(opts.email, p.email)
    ensures r.institute == Fill(opts.institute, p.institute)
    ensures r.nationality == Fill(opts.nationality, p.nationality)
    ensures r.gender == Fill(opts.gender, p.gender) && r.moreInfo == Fill(opts.moreInfo, p.moreInfo)
    ensures r.pictureKey == Fill(opts.pictureKey, p.pictureKey)
  {
    p.(shortName := Fill(opts.shortName, p.shortName), email := Fill(opts.email, p.email),
       institute := Fill(opts.institute, p.institute), nationality := Fill(opts.nationality, p.nationality),
       gender := Fill(opts.gender, p.gender), moreInfo := Fill(opts.moreInfo, p.moreInfo),
       pictureKey := Fill(opts.pictureKey, p.pictureKey))
  }

  /** Applying the same options twice is applying them once. */
  lemma UpdatedIdempotent(p: Profile, opts: UpdateOptions)
    ensures Updated(Updated(p, opts), opts) == Updated(p, opts)
  {
  }

  /** sanitizeForSaving: the Google id goes through sanitizeGoogleId. */
  function SanitizedForSaving(p: Profile, s: Sanitizers): (r: Profile)
    ensures r.(googleId := p.googleId) == p
    ensures r.googleId == s.googleId(p.googleId)
  {
    p.(googleId := s.googleId(p.googleId))
  }

  // ---------------------------------------------------------------------
  // The object

  class StudentProfileAttributes {
    var googleId: string
    var shortName: string
    var email: string
    var institute: string
    var nationality: string
    var gender: string
    var moreInfo: string
    var pictureKey: string
    var modifiedDate: Instant

    function State(): Profile
      reads this
    {
      Profile(googleId, shortName, email, institute, nationality, gender, moreInfo, pictureKey, modifiedDate)
    }

    /** The package-private constructor; Instant.now() is the parameter `now`. */
    constructor (id: string, now: Instant)
      ensures State() == Defaults(id, now)
    {
      googleId := id;
      shortName := "";
      email := "";
      institute := "";
      nationality := "";
      gender := OTHER;
      moreInfo := "";
      pictureKey := "";
      modifiedDate := now;
    }

    // The builder's setters.

    method WithShortName(value: Option<string>, s: Sanitizers)
      modifies this
      ensures State() == old(State()).(shortName := if value.Some? then s.name(value.value) else old(shortName))
    {
      if value.Some? {
        shortName := s.name(value.value);
      }
    }

    method WithEmail(value: Option<string>, s: Sanitizers)
      modifies this
      ensures State() == old(State()).(email := if value.Some? then s.email(value.value) else old(email))
    {
      if value.Some? {
        email := s.email(value.value);
      }
    }

    method WithInstitute(value: Option<string>, s: Sanitizers)
      modifies this
      ensures State() == old(State()).(institute := if value.Some? then s.title(value.value) else old(institute))
    {
      if value.Some? {
        institute := s.title(value.value);
      }
    }

    method WithNationality(value: Option<string>, s: Sanitizers)
      modifies this
      ensures State() == old(State()).(nationality := if value.Some? then s.name(value.value) else old(nationality))
    {
      if value.Some? {
        nationality := s.name(value.value);
      }
    }

    method WithGender(value: Option<string>)
      modifies this
      ensures State() == old(State()).(gender := GenderOrOther(value))
    {
      gender := if IsGenderValid(value) then value.value else OTHER;
    }

    method WithMoreInfo(value: Option<string>)
      modifies this
      ensures State() == old(State()).(moreInfo := value.GetOr(old(moreInfo)))
    {
      if value.Some? {
        moreInfo := value.value;
      }
    }

    method WithPictureKey(value: Option<string>)
      modifies this
      ensures State() == old(State()).(pictureKey := value.GetOr(old(pictureKey)))
    {
      if value.Some? {
        pictureKey := value.value;
      }
    }

    method WithModifiedDate(value: Option<Instant>, now: Instant)
      modifies this
      ensures State() == old(State()).(modifiedDate := value.GetOr(now))
    {
      modifiedDate := if value.None? then now else value.value;
    }

    method GetCopy(s: Sanitizers, now: Instant) returns (c: StudentProfileAttributes)
      ensures fresh(c)
      ensures c.State() == Copy(State(), s, now)
    {
      c := Build(googleId, ArgsOf(State()), s, now);
    }

    method Update(opts: UpdateOptions)
      modifies this
      ensures State() == Updated(old(State()), opts)
    {
      shortName := Fill(opts.shortName, shortName);
      email := Fill(opts.email, email);
      institute := Fill(opts.institute, institute);
      nationality := Fill(opts.nationality, nationality);
      gender := Fill(opts.gender, gender);
      moreInfo := Fill(opts.moreInfo, moreInfo);
      pictureKey := Fill(opts.pictureKey, pictureKey);
    }

    method SanitizeForSaving(s: Sanitizers)
      modifies this
      ensures State() == SanitizedForSaving(old(State()), s)
    {
      googleId := s.googleId(googleId);
    }
  }

  /** builder(googleId).with...(args).build(), as a fresh object. */
  method Build(googleId: string, args: BuilderArgs, s: Sanitizers, now: Instant) returns (p: StudentProfileAttributes)
    ensures fresh(p)
    ensures p.State() == Built(Some(googleId), args, s, now).value
  {
    p := new StudentProfileAttributes(googleId, now);
    p.WithShortName(args.shortName, s);
    p.WithEmail(args.email, s);
    p.WithInstitute(args.institute, s);
    p.WithGender(args.gender);
    p.WithNationality(args.nationality, s);
    p.WithMoreInfo(args.moreInfo);
    p.WithPictureKey(args.pictureKey);
    p.WithModifiedDate(args.modifiedDate, now);
  }
}
