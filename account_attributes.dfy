// AccountAttributes: a user account (Google id, name, email, institute, the
// instructor flag and the creation time), its builder with the sanitizers it
// applies, the registration predicate and the one-option update.

module AccountAttributes {
  import opened Common
  import Streams

  /** The fields of an AccountAttributes object; every reference field may be null. */
  datatype Account = Account(
    googleId: Option<string>,
    name: Option<string>,
    isInstructor: bool,
    email: Option<string>,
    institute: Option<string>,
    createdAt: Option<Instant>)

  /** isUserRegistered: the account has a non-null, non-empty Google id. */
  predicate IsUserRegistered(a: Account)
  {
    a.googleId.Some? && a.googleId.value != ""
  }

  /** The SanitizationHelper functions the builder and sanitizeForSaving apply; each leaves
      null as null. */
  datatype Sanitizers = Sanitizers(
    googleId: string -> string,
    name: string -> string,
    email: string -> string,
    title: string -> string,
    html: string -> string)

  /** Builder.build(): the four reference fields go through sanitizeGoogleId, sanitizeName,
      sanitizeEmail and sanitizeTitle; the flag and the creation time are kept. */
  function Built(a: Account, s: Sanitizers): (r: Account)
    ensures r.isInstructor == a.isInstructor && r.createdAt == a.createdAt
    ensures r.googleId == MapOption(a.googleId, s.googleId) && r.name == MapOption(a.name, s.name)
    ensures r.email == MapOption(a.email, s.email) && r.institute == MapOption(a.institute, s.title)
  {
    a.(googleId := MapOption(a.googleId, s.googleId), name := MapOption(a.name, s.name),
       email := MapOption(a.email, s.email), institute := MapOption(a.institute, s.title))
  }

  /** getCopy: the builder applied again to every field but the creation time, which the copy
      leaves null. */
  function Copy(a: Account, s: Sanitizers): (r: Account)
    ensures r.createdAt.None? && r.isInstructor == a.isInstructor
    ensures r.googleId.Some? <==> a.googleId.Some?
    ensures r.name.Some? <==> a.name.Some?
  {
    Built(a.(createdAt := None), s)
  }

  /** A sanitizer that changes nothing the second time. */
  ghost predicate Idempotent(f: string -> string)
  {
    forall x :: f(f(x)) == f(x)
  }

  /** The copy of a built account is that account without its creation time, provided every
      builder sanitizer is idempotent. */
  lemma CopyOfBuilt(a: Account, s: Sanitizers)
    requires Idempotent(s.googleId) && Idempotent(s.name) && Idempotent(s.email) && Idempotent(s.title)
    ensures Copy(Built(a, s), s) == Built(a, s).(createdAt := None)
    ensures IsUserRegistered(Copy(Built(a, s), s)) <==> IsUserRegistered(Built(a, s))
  {
  }

  /** The FieldValidator checks an account goes through; each returns "" or an error message. */
  datatype AccountValidator = AccountValidator(
    personNameError: Option<string> -> string,
    googleIdError: Option<string> -> string,
    emailError: Option<string> -> string,
    instituteNameError: Option<string> -> string)

  /** The checks in the order getInvalidityInfo runs them; the flag and the creation time are
      not checked. */
  function Checks(a: Account, v: AccountValidator): seq<string>
  {
    [v.personNameError(a.name), v.googleIdError(a.googleId), v.emailError(a.email), v.instituteNameError(a.institute)]
  }

  /** getInvalidityInfo: the non-empty check messages, in check order. */
  function InvalidityInfo(a: Account, v: AccountValidator): (errors: seq<string>)
    ensures forall e | e in errors :: e != "" && e in Checks(a, v)
    ensures forall e | e in Checks(a, v) && e != "" :: e in errors
    ensures errors == [] <==> forall e | e in Checks(a, v) :: e == ""
  {
    var errors := Streams.Filter(Checks(a, v), (m: string) => m != "");
    assert errors != [] ==> errors[0] in errors;
    errors
  }

  /** The instructor flag and the creation time never affect validity. */
  lemma InvalidityInfoIgnoresFlagAndCreation(a: Account, b: Account, v: AccountValidator)
    requires a.(isInstructor := b.isInstructor, createdAt := b.createdAt) == b
    ensures InvalidityInfo(a, v) == InvalidityInfo(b, v)
  {
  }

  /** sanitizeForSaving: the Google id, name and institute go through sanitizeForHtml. */
  function SanitizedForSaving(a: Account, s: Sanitizers): (r: Account)
    ensures r.(googleId := a.googleId, name := a.name, institute := a.institute) == a
    ensures r.googleId.Some? <==> a.googleId.Some?
  {
    a.(googleId := MapOption(a.googleId, s.html), name := MapOption(a.name, s.html),
       institute := MapOption(a.institute, s.html))
  }

  /** UpdateOptions: the Google id the update is for and the optional instructor flag. */
  datatype UpdateOptions = UpdateOptions(googleId: string, isInstructor: Option<bool>)

  /** updateOptionsBuilder(googleId)[.withIsInstructor(flag)].build(): a null Google id fails
      the assertion in the UpdateOptions constructor. */
  function UpdateOptionsFor(googleId: Option<string>, isInstructor: Option<bool>): (r: Outcome<UpdateOptions>)
    ensures r.Fail? <==> googleId.None?
    ensures r.Fail? ==> r.failure == AssertionFailure
    ensures r.Ok? ==> r.value.googleId == googleId.value && r.value.isInstructor == isInstructor
  {
    if googleId.None? then Fail(AssertionFailure) else Ok(UpdateOptions(googleId.value, isInstructor))
  }

  /** update(UpdateOptions): only the instructor flag can change. */
  function Updated(a: Account, opts: UpdateOptions): (r: Account)
    ensures r.(isInstructor := a.isInstructor) == a
    ensures r.isInstructor == Fill(opts.isInstructor, a.isInstructor)
  {
    a.(isInstructor := Fill(opts.isInstructor, a.isInstructor))
  }

  /** An update keeps registration, and applying it twice is applying it once. */
  lemma UpdatedKeepsIdentity(a: Account, opts: UpdateOptions)
    ensures IsUserRegistered(Updated(a, opts)) <==> IsUserRegistered(a)
    ensures Updated(Updated(a, opts), opts) == Updated(a, opts)
    ensures opts.isInstructor.None? ==> Updated(a, opts) == a
  {
  }

  /** The AccountAttributes object. */
  class AccountAttributes {
    var googleId: Option<string>
    var name: Option<string>
    var isInstructor: bool
    var email: Option<string>
    var institute: Option<string>
    var createdAt: Option<Instant>

    function State(): Account
      reads this
    {
      Account(googleId, name, isInstructor, email, institute, createdAt)
    }

    /** The empty constructor the builder starts from. */
    constructor ()
      ensures State() == Account(None, None, false, None, None, None)
    {
      googleId := None;
      name := None;
      isInstructor := false;
      email := None;
      institute := None;
      createdAt := None;
    }

    /** getCopy, as a fresh object. */
    method GetCopy(s: Sanitizers) returns (c: AccountAttributes)
      ensures fresh(c)
      ensures c.State() == Copy(State(), s)
    {
      c := Build(State().(createdAt := None), s);
    }

    method Update(opts: UpdateOptions)
      modifies this
      ensures State() == Updated(old(State()), opts)
    {
      if opts.isInstructor.Some? {
        isInstructor := opts.isInstructor.value;
      }
    }

    method SanitizeForSaving(s: Sanitizers)
      modifies this
      ensures State() == SanitizedForSaving(old(State()), s)
    {
      googleId := MapOption(googleId, s.html);
      name := MapOption(name, s.html);
      institute := MapOption(institute, s.html);
    }
  }

  /** builder().with...(fields).build(), as a fresh object. */
  method Build(fields: Account, s: Sanitizers) returns (a: AccountAttributes)
    ensures fresh(a)
    ensures a.State() == Built(fields, s)
  {
    a := new AccountAttributes();
    a.googleId := fields.googleId;
    a.name := fields.name;
    a.isInstructor := fields.isInstructor;
    a.institute := fields.institute;
    a.email := fields.email;
    a.createdAt := fields.createdAt;
    a.googleId := MapOption(a.googleId, s.googleId);
    a.name := MapOption(a.name, s.name);
    a.email := MapOption(a.email, s.email);
    a.institute := MapOption(a.institute, s.title);
  }
}
