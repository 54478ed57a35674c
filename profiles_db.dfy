// ProfilesDb: the store of student profiles keyed by Google id, with
// update-or-create that skips the write when nothing but the modification time
// would change, and the deletions of a profile and of its picture key.

module ProfilesDb {
  import opened Common
  import opened StudentProfileAttributes
  import JavaStrings

  /** The getters of a stored StudentProfile entity; the picture's BlobKey is kept as its key
      string. Fields of entities saved by older versions may be null. */
  datatype ProfileEntity = ProfileEntity(
    googleId: string,
    shortName: Option<string>,
    email: Option<string>,
    institute: Option<string>,
    nationality: Option<string>,
    gender: Option<string>,
    moreInfo: Option<string>,
    pictureKey: string,
    modifiedDate: Option<Instant>)

  /** new StudentProfile(googleId): every text field "", gender "other", no picture, modified now. */
  function NewEntity(googleId: string, now: Instant): (e: ProfileEntity)
    ensures e.googleId == googleId && e.pictureKey == "" && e.modifiedDate == Some(now)
  {
    ProfileEntity(googleId, Some(""), Some(""), Some(""), Some(""), Some(OTHER), Some(""), "", Some(now))
  }

  /** valueOf(entity) (makeAttributes): the builder given every getter's value. */
  function AttributesOf(e: ProfileEntity, s: Sanitizers, now: Instant): (p: Profile)
    ensures p.googleId == e.googleId && p.pictureKey == e.pictureKey
    ensures p.moreInfo == e.moreInfo.GetOr("")
    ensures p.gender == GenderOrOther(e.gender)
    ensures p.modifiedDate == e.modifiedDate.GetOr(now)
  {
    Built(Some(e.googleId), BuilderArgs(e.shortName, e.email, e.institute, e.gender, e.nationality,
                                        e.moreInfo, Some(e.pictureKey), e.modifiedDate), s, now).value
  }

  /** A new entity reads back as the attribute defaults, provided the builder's sanitizers keep "". */
  lemma NewEntityReadsAsDefaults(googleId: string, s: Sanitizers, now: Instant, later: Instant)
    requires s.name("") == "" && s.email("") == "" && s.title("") == ""
    ensures AttributesOf(NewEntity(googleId, now), s, later) == Defaults(googleId, now)
  {
  }

  /** hasNoNewChangesToProfile: the copy of the new attributes, given the stored modification
      time, prints the same as the stored profile read back. The JSON printing is taken to
      tell profiles apart exactly when their fields differ. */
  predicate HasNoNewChanges(n: Profile, e: ProfileEntity, s: Sanitizers, now: Instant)
  {
    var existing := AttributesOf(e, s, now);
    Copy(n, s, now).(modifiedDate := existing.modifiedDate) == existing
  }

  /** The entity after the setters of updateOrCreateStudentProfile: every field of `n`, the
      gender lower-cased, modified `now`. */
  function Written(e: ProfileEntity, n: Profile, now: Instant): (w: ProfileEntity)
    ensures w.googleId == e.googleId && w.modifiedDate == Some(now) && w.pictureKey == n.pictureKey
  {
    e.(shortName := Some(n.shortName), email := Some(n.email), institute := Some(n.institute),
       nationality := Some(n.nationality), gender := Some(JavaStrings.ToLower(n.gender)),
       moreInfo := Some(n.moreInfo), pictureKey := n.pictureKey, modifiedDate := Some(now))
  }

  /** The profile updateOrCreateStudentProfile validates: the stored one (or a new one), read
      back, updated with the options and sanitized. */
  function Candidate(e: ProfileEntity, opts: UpdateOptions, s: Sanitizers, now: Instant): Profile
  {
    SanitizedForSaving(Updated(AttributesOf(e, s, now), opts), s)
  }

  class ProfilesDb {
    var profiles: map<string, ProfileEntity>

    ghost predicate Valid()
      reads this
    {
      forall k | k in profiles :: profiles[k].googleId == k
    }

    constructor (initial: map<string, ProfileEntity>)
      requires forall k | k in initial :: initial[k].googleId == k
      ensures profiles == initial && Valid()
    {
      profiles := initial;
    }

    /** getStudentProfile: null for an unknown Google id. */
    function GetStudentProfile(googleId: string, s: Sanitizers, now: Instant): (r: Option<Profile>)
      requires Valid()
      reads this
      ensures r.None? <==> googleId !in profiles
      ensures r.Some? ==> r.value == AttributesOf(profiles[googleId], s, now) && r.value.googleId == googleId
    {
      if googleId in profiles then Some(AttributesOf(profiles[googleId], s, now)) else None
    }

    /** updateOrCreateStudentProfile: start from the stored profile or a new one; InvalidParameters
        and no write when the result is invalid; no write, and the result returned, when only
        the modification time would differ; otherwise every field is written with the current
        time and the written profile is returned. */
    method UpdateOrCreateStudentProfile(opts: UpdateOptions, v: ProfileValidator, s: Sanitizers, now: Instant)
      returns (r: Outcome<Profile>)
      requires Valid()
      modifies this
      ensures Valid()
      ensures var g := opts.googleId;
              var e := if g in old(profiles) then old(profiles)[g] else NewEntity(g, now);
              var n := Candidate(e, opts, s, now);
              if !IsValid(n, v) then
                r == Fail(InvalidParameters(InvalidityInfo(n, v))) && profiles == old(profiles)
              else if HasNoNewChanges(n, e, s, now) then
                r == Ok(n) && profiles == old(profiles)
              else
                r == Ok(AttributesOf(Written(e, n, now), s, now))
                && profiles == old(profiles)[g := Written(e, n, now)]
    {
      var g := opts.googleId;
      ghost var before := profiles;
      var studentProfile;
      if g in profiles {
        studentProfile := profiles[g];
      } else {
        studentProfile := NewEntity(g, now);
      }
      var newAttributes := Build(studentProfile.googleId,
                                 BuilderArgs(studentProfile.shortName, studentProfile.email, studentProfile.institute,
                                             studentProfile.gender, studentProfile.nationality, studentProfile.moreInfo,
                                             Some(studentProfile.pictureKey), studentProfile.modifiedDate), s, now);
      newAttributes.Update(opts);
      newAttributes.SanitizeForSaving(s);
      var n := newAttributes.State();
      ghost var e := studentProfile;
      assert n == Candidate(e, opts, s, now);
      if !IsValid(n, v) {
        return Fail(InvalidParameters(InvalidityInfo(n, v)));
      }
      if HasNoNewChanges(n, studentProfile, s, now) {
        return Ok(n);
      }
      studentProfile := studentProfile.(shortName := Some(n.shortName), email := Some(n.email),
                                        institute := Some(n.institute), nationality := Some(n.nationality));
      studentProfile := studentProfile.(gender := Some(JavaStrings.ToLower(n.gender)), moreInfo := Some(n.moreInfo),
                                        pictureKey := n.pictureKey, modifiedDate := Some(now));
      assert studentProfile == Written(e, n, now);
      assert profiles == before;
      profiles := profiles[g := studentProfile];
      r := Ok(AttributesOf(studentProfile, s, now));
    }

    /** deleteStudentProfile: the profile is removed, and its picture is deleted (returned
        here) only when its key is not empty; an unknown Google id changes nothing. */
    method DeleteStudentProfile(googleId: string) returns (deletedPictures: seq<string>)
      requires Valid()
      modifies this
      ensures Valid()
      ensures profiles == old(profiles) - {googleId}
      ensures deletedPictures == if googleId in old(profiles) && old(profiles)[googleId].pictureKey != ""
                                 then [old(profiles)[googleId].pictureKey] else []
    {
      if googleId !in profiles {
        return [];
      }
      var sp := profiles[googleId];
      deletedPictures := [];
      if sp.pictureKey != "" {
        deletedPictures := [sp.pictureKey];
      }
      profiles := profiles - {googleId};
    }

    /** deletePictureKey: an existing profile's picture key becomes "" and its modification time
        `now`; an unknown Google id changes nothing. */
    method DeletePictureKey(googleId: string, now: Instant)
      requires Valid()
      modifies this
      ensures Valid()
      ensures if googleId in old(profiles) then
                profiles == old(profiles)[googleId := old(profiles)[googleId].(pictureKey := "", modifiedDate := Some(now))]
              else profiles == old(profiles)
    {
      if googleId in profiles {
        var studentProfile := profiles[googleId];
        studentProfile := studentProfile.(pictureKey := "", modifiedDate := Some(now));
        profiles := profiles[googleId := studentProfile];
      }
    }
  }

  /** A written profile reads back as the candidate with the write's modification time,
      provided the builder's sanitizers are stable and lower-casing keeps the gender. */
  lemma WrittenReadsBack(e: ProfileEntity, n: Profile, s: Sanitizers, now: Instant, later: Instant)
    requires IsStable(s.name) && IsStable(s.email) && IsStable(s.title)
    requires n == Copy(n, s, now) && JavaStrings.ToLower(n.gender) == n.gender
    requires n.googleId == e.googleId
    ensures AttributesOf(Written(e, n, now), s, later) == n.(modifiedDate := now)
  {
  }

  /** When the write is skipped, the store keeps its modification time and already reads back
      as the copy of the candidate, apart from that time. */
  lemma SkippedWriteKeepsEverything(e: ProfileEntity, n: Profile, s: Sanitizers, now: Instant)
    requires HasNoNewChanges(n, e, s, now)
    ensures var existing := AttributesOf(e, s, now);
            existing.modifiedDate == e.modifiedDate.GetOr(now)
            && existing.(modifiedDate := n.modifiedDate) == Copy(n, s, now)
  {
  }

  /** Update-or-create of an unknown Google id with no option set and stable sanitizers finds
      nothing to change, so no profile is created. */
  lemma EmptyUpdateCreatesNothing(googleId: string, s: Sanitizers, now: Instant)
    requires IsStable(s.name) && IsStable(s.email) && IsStable(s.title) && s.googleId(googleId) == googleId
    ensures var opts := UpdateOptions(googleId, None, None, None, None, None, None, None);
            var e := NewEntity(googleId, now);
            HasNoNewChanges(Candidate(e, opts, s, now), e, s, now)
  {
  }
}
