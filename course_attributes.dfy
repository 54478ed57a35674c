// CourseAttributes: a course's id, name, time zone and its creation and
// soft-deletion instants, with the stored-entity conversion, the comparator,
// the two sorts and the option-driven update.

module CourseAttributes {
  import opened Common
  import opened Const
  import Sorting
  import JavaStrings

  /** java.time.ZoneId, by its id. */
  datatype ZoneId = ZoneId(id: string)

  /** Const.DEFAULT_TIME_ZONE as a ZoneId. */
  const DEFAULT_ZONE: ZoneId := ZoneId(DEFAULT_TIME_ZONE)

  /** The fields of a CourseAttributes object. `createdAt` is never null: the constructor
      sets it to the current instant and valueOf overrides it only with a non-null value. */
  datatype Course = Course(
    id: string,
    name: Option<string>,
    timeZone: ZoneId,
    createdAt: Instant,
    deletedAt: Option<Instant>)
  {
    predicate IsCourseDeleted() { deletedAt.Some? }
  }

  /** The getters of a stored Course entity (the entity class is not part of this model);
      the time zone is stored as its id. */
  datatype CourseEntity = CourseEntity(
    uniqueId: string,
    name: Option<string>,
    timeZone: string,
    createdAt: Option<Instant>,
    deletedAt: Option<Instant>)

  /** The record the package-private constructor leaves: the default zone, created now, not deleted. */
  function Defaults(courseId: string, now: Instant): (r: Course)
    ensures r.id == courseId && r.name.None?
    ensures r.timeZone == DEFAULT_ZONE && r.createdAt == now
    ensures !r.IsCourseDeleted()
  {
    Course(courseId, None, DEFAULT_ZONE, now, None)
  }

  /** ZoneId.of with its DateTimeException caught: `zoneOf` is ZoneId.of, None standing for the
      exception, and an unsupported id falls back to the default zone. */
  function ResolvedZone(zoneOf: string -> Option<ZoneId>, id: string): (z: ZoneId)
    ensures zoneOf(id).Some? ==> z == zoneOf(id).value
    ensures zoneOf(id).None? ==> z == DEFAULT_ZONE
  {
    if zoneOf(id).Some? then zoneOf(id).value else DEFAULT_ZONE
  }

  /** valueOf(course): id, name, deletion time copied; the zone resolved with the fallback;
      the creation time copied only when it is not null. */
  function AttributesOf(e: CourseEntity, now: Instant, zoneOf: string -> Option<ZoneId>): (r: Course)
    ensures r.id == e.uniqueId && r.name == e.name && r.deletedAt == e.deletedAt
    ensures r.timeZone == ResolvedZone(zoneOf, e.timeZone)
    ensures r.createdAt == e.createdAt.GetOr(now)
    ensures r.IsCourseDeleted() <==> e.deletedAt.Some?
  {
    Defaults(e.uniqueId, now).(name := e.name, timeZone := ResolvedZone(zoneOf, e.timeZone),
                               createdAt := e.createdAt.GetOr(now), deletedAt := e.deletedAt)
  }

  /** toEntity: the fields, with the zone stored by its id. */
  function ToEntity(c: Course): (e: CourseEntity)
  {
    CourseEntity(c.id, c.name, c.timeZone.id, Some(c.createdAt), c.deletedAt)
  }

  /** Reading back a saved course gives the course again, whenever its zone id resolves to its
      zone. */
  lemma ValueOfToEntity(c: Course, now: Instant, zoneOf: string -> Option<ZoneId>)
    requires zoneOf(c.timeZone.id) == Some(c.timeZone)
    ensures AttributesOf(ToEntity(c), now, zoneOf) == c
  {
  }

  /** A stored zone id that ZoneId.of rejects is read back as the default zone, and a stored
      null creation time as the current instant; nothing else is lost. */
  lemma ValueOfFallbacks(e: CourseEntity, now: Instant, zoneOf: string -> Option<ZoneId>)
    requires zoneOf(e.timeZone).None? && e.createdAt.None?
    ensures var c := AttributesOf(e, now, zoneOf);
            c.timeZone == DEFAULT_ZONE && c.createdAt == now
            && ToEntity(c) == e.(timeZone := DEFAULT_TIME_ZONE, createdAt := Some(now))
  {
  }

  // ---------------------------------------------------------------------
  // compareTo and the sorts

  /** compareTo(o): 0 for a null argument; otherwise the later-created course comes first. */
  function CompareTo(c: Course, o: Option<Course>): (r: int)
    ensures o.None? ==> r == 0
    ensures o.Some? ==> (r < 0 <==> c.createdAt > o.value.createdAt)
    ensures o.Some? ==> (r == 0 <==> c.createdAt == o.value.createdAt)
  {
    if o.None? then 0 else IntCompare(o.value.createdAt, c.createdAt)
  }

  /** Comparator.comparing(getId). */
  function ById(a: Course, b: Course): int
  {
    JavaStrings.CompareTo(a.id, b.id)
  }

  /** comparing(createdAt).reversed().thenComparing(getId). */
  function ByCreatedDate(a: Course, b: Course): int
  {
    if a.createdAt != b.createdAt then IntCompare(b.createdAt, a.createdAt)
    else JavaStrings.CompareTo(a.id, b.id)
  }

  lemma ByIdIsPreorder()
    ensures Sorting.IsTotalPreorder(ById)
  {
    forall x: Course, y: Course, z: Course
      ensures ById(x, y) >= 0 ==> ById(y, x) <= 0
      ensures ById(x, y) <= 0 && ById(y, z) <= 0 ==> ById(x, z) <= 0
    {
      JavaStrings.CompareToAntisymmetric(x.id, y.id);
      JavaStrings.CompareToTotalOrder(x.id, y.id, z.id);
    }
  }

  lemma ByCreatedDateIsPreorder()
    ensures Sorting.IsTotalPreorder(ByCreatedDate)
  {
    forall x: Course, y: Course, z: Course
      ensures ByCreatedDate(x, y) >= 0 ==> ByCreatedDate(y, x) <= 0
      ensures ByCreatedDate(x, y) <= 0 && ByCreatedDate(y, z) <= 0 ==> ByCreatedDate(x, z) <= 0
    {
      JavaStrings.CompareToAntisymmetric(x.id, y.id);
      JavaStrings.CompareToTotalOrder(x.id, y.id, z.id);
    }
  }

  /** The natural order and the first key of sortByCreatedDate agree: a course compareTo puts
      strictly first is put first by the sort's comparator too, and conversely. */
  lemma CompareToAgreesWithCreatedDate(a: Course, b: Course)
    ensures CompareTo(a, Some(b)) < 0 <==> a.createdAt != b.createdAt && ByCreatedDate(a, b) < 0
  {
  }

  /** sortById. */
  function SortById(courses: seq<Course>): (r: seq<Course>)
  {
    Sorting.SortBy(courses, ById)
  }

  /** sortByCreatedDate. */
  function SortByCreatedDate(courses: seq<Course>): (r: seq<Course>)
  {
    Sorting.SortBy(courses, ByCreatedDate)
  }

  /** sortById holds the same courses, with ids in ascending order. */
  lemma SortByIdOrders(courses: seq<Course>)
    ensures var r := SortById(courses);
            multiset(r) == multiset(courses)
            && forall i, j | 0 <= i < j < |r| :: JavaStrings.CompareTo(r[i].id, r[j].id) <= 0
  {
    ByIdIsPreorder();
    Sorting.SortBySorted(courses, ById);
  }

  /** sortByCreatedDate holds the same courses, the later-created first, and among courses
      created at the same instant the ids ascend. */
  lemma SortByCreatedDateOrders(courses: seq<Course>)
    ensures var r := SortByCreatedDate(courses);
            multiset(r) == multiset(courses)
            && (forall i, j | 0 <= i < j < |r| :: r[i].createdAt >= r[j].createdAt)
            && (forall i, j | 0 <= i < j < |r| && r[i].createdAt == r[j].createdAt ::
                  JavaStrings.CompareTo(r[i].id, r[j].id) <= 0)
  {
    ByCreatedDateIsPreorder();
    Sorting.SortBySorted(courses, ByCreatedDate);
    var r := SortByCreatedDate(courses);
    forall i, j | 0 <= i < j < |r| ensures r[i].createdAt >= r[j].createdAt {
      assert ByCreatedDate(r[i], r[j]) <= 0;
    }
  }

  // ---------------------------------------------------------------------
  // getInvalidityInfo

  /** The FieldValidator checks a course goes through; each returns "" or an error message. */
  datatype CourseValidator = CourseValidator(
    courseIdError: string -> string,
    courseNameError: Option<string> -> string)

  /** getInvalidityInfo: the id check's message, then the name check's, each only if non-empty. */
  function InvalidityInfo(c: Course, v: CourseValidator): (errors: seq<string>)
    ensures forall e | e in errors :: e != ""
    ensures v.courseIdError(c.id) != "" && v.courseNameError(c.name) != ""
            ==> errors == [v.courseIdError(c.id), v.courseNameError(c.name)]
    ensures v.courseIdError(c.id) != "" && v.courseNameError(c.name) == "" ==> errors == [v.courseIdError(c.id)]
    ensures v.courseIdError(c.id) == "" && v.courseNameError(c.name) != "" ==> errors == [v.courseNameError(c.name)]
    ensures v.courseIdError(c.id) == "" && v.courseNameError(c.name) == "" ==> errors == []
  {
    var idError := v.courseIdError(c.id);
    var nameError := v.courseNameError(c.name);
    (if idError != "" then [idError] else []) + (if nameError != "" then [nameError] else [])
  }

  predicate IsValid(c: Course, v: CourseValidator)
  {
    InvalidityInfo(c, v) == []
  }

  /** A course is valid exactly when both checks pass. */
  lemma ValidIffChecksPass(c: Course, v: CourseValidator)
    ensures IsValid(c, v) <==> v.courseIdError(c.id) == "" && v.courseNameError(c.name) == ""
  {
  }

  // ---------------------------------------------------------------------
  // update

  /** UpdateOptions: the course id (asserted non-null) and the three options. Only the name
      and the time zone have a builder setter; the deletion-time option keeps whatever it holds. */
  datatype UpdateOptions = UpdateOptions(
    courseId: string,
    deletedAt: Option<Instant>,
    name: Option<string>,
    timeZone: Option<ZoneId>)

  /** updateOptionsBuilder(courseId).build() with no setter called. */
  function NoUpdates(courseId: string): UpdateOptions
  {
    UpdateOptions(courseId, None, None, None)
  }

  /** update(UpdateOptions): each present option replaces its field. */
  function Updated(c: Course, opts: UpdateOptions): (r: Course)
    ensures r.id == c.id && r.createdAt == c.createdAt
    ensures r.deletedAt == FillNullable(opts.deletedAt, c.deletedAt)
    ensures r.name == FillNullable(opts.name, c.name)
    ensures r.timeZone == Fill(opts.timeZone, c.timeZone)
  {
    c.(deletedAt := FillNullable(opts.deletedAt, c.deletedAt),
       name := FillNullable(opts.name, c.name),
       timeZone := Fill(opts.timeZone, c.timeZone))
  }

  /** Applying the same options twice is applying them once, and options without any present
      value change nothing. */
  lemma UpdatedIdempotent(c: Course, opts: UpdateOptions)
    ensures Updated(Updated(c, opts), opts) == Updated(c, opts)
    ensures Updated(c, NoUpdates(opts.courseId)) == c
  {
  }

  /** A course whose deletion time was reset is not deleted, whatever it was before. */
  lemma ResetIsNotDeleted(c: Course)
    ensures !c.(deletedAt := None).IsCourseDeleted()
    ensures c.IsCourseDeleted() ==> c.(deletedAt := None) != c
  {
  }

  /** The CourseAttributes object. */
  class CourseAttributes {
    var createdAt: Instant
    var deletedAt: Option<Instant>
    var id: string
    var name: Option<string>
    var timeZone: ZoneId

    function State(): Course
      reads this
    {
      Course(id, name, timeZone, createdAt, deletedAt)
    }

    /** The package-private constructor; Instant.now() is the parameter `now`. */
    constructor (courseId: string, now: Instant)
      ensures State() == Defaults(courseId, now)
    {
      id := courseId;
      timeZone := DEFAULT_ZONE;
      createdAt := now;
      deletedAt := None;
      name := None;
    }

    predicate IsCourseDeleted()
      reads this
    {
      deletedAt.Some?
    }

    /** resetDeletedAt: the course is no longer deleted; nothing else changes. */
    method ResetDeletedAt()
      modifies this
      ensures State() == old(State()).(deletedAt := None)
      ensures !IsCourseDeleted()
    {
      deletedAt := None;
    }

    /** setName. */
    method SetName(value: Option<string>)
      modifies this
      ensures State() == old(State()).(name := value)
    {
      name := value;
    }

    /** setTimeZone. */
    method SetTimeZone(value: ZoneId)
      modifies this
      ensures State() == old(State()).(timeZone := value)
    {
      timeZone := value;
    }

    /** update(UpdateOptions). */
    method Update(opts: UpdateOptions)
      modifies this
      ensures State() == Updated(old(State()), opts)
    {
      if opts.deletedAt.Some? {
        deletedAt := opts.deletedAt;
      }
      if opts.name.Some? {
        name := opts.name;
      }
      if opts.timeZone.Some? {
        timeZone := opts.timeZone.value;
      }
    }
  }

  /** valueOf(course) on a fresh object. */
  method ValueOf(e: CourseEntity, now: Instant, zoneOf: string -> Option<ZoneId>) returns (a: CourseAttributes)
    ensures fresh(a)
    ensures a.State() == AttributesOf(e, now, zoneOf)
  {
    a := new CourseAttributes(e.uniqueId, now);
    a.name := e.name;
    var courseTimeZone;
    var parsed := zoneOf(e.timeZone);
    if parsed.Some? {
      courseTimeZone := parsed.value;
    } else {
      courseTimeZone := DEFAULT_ZONE;
    }
    a.timeZone := courseTimeZone;
    if e.createdAt.Some? {
      a.createdAt := e.createdAt.value;
    }
    a.deletedAt := e.deletedAt;
  }

  /** builder(courseId) ... build(): the constructor's defaults, then update with the options. */
  method Build(courseId: string, opts: UpdateOptions, now: Instant) returns (a: CourseAttributes)
    requires opts.courseId == courseId
    ensures fresh(a)
    ensures a.State() == Updated(Defaults(courseId, now), opts)
  {
    a := new CourseAttributes(courseId, now);
    a.Update(opts);
  }
}
