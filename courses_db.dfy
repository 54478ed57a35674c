// CoursesDb: the store of courses keyed by course id. A missing course reads as
// null, an update of a missing or invalid course fails without writing, and a
// deletion of a missing course is silent.

module CoursesDb {
  import opened Common
  import opened CourseAttributes
  import Const
  import Streams

  const ERROR_UPDATE_NON_EXISTENT_COURSE: string := "Trying to update a Course that doesn't exist: "

  /** The requested ids that are stored, each once, in the order first requested (the map
      load().ids returns, turned into a list). */
  function FoundIds(courseIds: seq<string>, stored: set<string>): (r: seq<string>)
    ensures Streams.Distinct(r)
    ensures forall id :: id in r <==> id in courseIds && id in stored
    decreases |courseIds|
  {
    if |courseIds| == 0 then []
    else
      var init := FoundIds(courseIds[..|courseIds| - 1], stored);
      var id := courseIds[|courseIds| - 1];
      assert forall x | x in courseIds :: x in courseIds[..|courseIds| - 1] || x == id;
      if id in stored && id !in init then
        Streams.DistinctSnoc(init, id);
        init + [id]
      else init
  }


  class CoursesDb {
    var courses: map<string, CourseEntity>

    ghost predicate Valid()
      reads this
    {
      forall k | k in courses :: courses[k].uniqueId == k
    }

    constructor (initial: map<string, CourseEntity>)
      requires forall k | k in initial :: initial[k].uniqueId == k
      ensures courses == initial && Valid()
    {
      courses := initial;
    }

    /** getCourse: null when no course has the id, otherwise the stored course read back by
        makeAttributes, whose id is the requested one. */
    function GetCourse(courseId: string, now: Instant, zoneOf: string -> Option<ZoneId>): (r: Option<Course>)
      requires Valid()
      reads this
      ensures r.None? <==> courseId !in courses
      ensures r.Some? ==> r.value == AttributesOf(courses[courseId], now, zoneOf) && r.value.id == courseId
    {
      if courseId in courses then Some(AttributesOf(courses[courseId], now, zoneOf)) else None
    }

    /** getCourses: the stored courses among the ids, each once; none for an empty list. */
    function GetCourses(courseIds: seq<string>, now: Instant, zoneOf: string -> Option<ZoneId>): (r: seq<Course>)
      requires Valid()
      reads this
      ensures forall c | c in r :: c.id in courseIds && GetCourse(c.id, now, zoneOf) == Some(c)
      ensures forall id | id in courseIds && id in courses :: GetCourse(id, now, zoneOf).value in r
      ensures Streams.Distinct(r)
    {
      var found := FoundIds(courseIds, courses.Keys);
      var stored := courses;
      var r := seq(|found|, i requires 0 <= i < |found| => AttributesOf(stored[found[i]], now, zoneOf));
      assert forall i | 0 <= i < |found| :: r[i].id == found[i];
      assert forall id | id in courseIds && id in courses :: exists i :: 0 <= i < |found| && found[i] == id;
      r
    }

    /** updateCourse: EntityDoesNotExist for a missing course; InvalidParameters and no write
        when the updated course is invalid; otherwise the name, the deletion time and the
        time zone's id are written and the updated course is returned. The stored creation
        time is never written. */
    method UpdateCourse(opts: UpdateOptions, v: CourseValidator, now: Instant, zoneOf: string -> Option<ZoneId>)
      returns (r: Outcome<Course>)
      requires Valid()
      modifies this
      ensures Valid()
      ensures if opts.courseId !in old(courses) then
                r == Fail(EntityDoesNotExist(ERROR_UPDATE_NON_EXISTENT_COURSE)) && courses == old(courses)
              else
                var e := old(courses)[opts.courseId];
                var n := Updated(AttributesOf(e, now, zoneOf), opts);
                if !IsValid(n, v) then
                  r == Fail(InvalidParameters(InvalidityInfo(n, v))) && courses == old(courses)
                else
                  r == Ok(n)
                  && courses == old(courses)[opts.courseId := e.(name := n.name, deletedAt := n.deletedAt,
                                                                 timeZone := n.timeZone.id)]
    {
      if opts.courseId !in courses {
        return Fail(EntityDoesNotExist(ERROR_UPDATE_NON_EXISTENT_COURSE));
      }
      var course := courses[opts.courseId];
      var newAttributes := ValueOf(course, now, zoneOf);
      newAttributes.Update(opts);
      var n := newAttributes.State();
      if !IsValid(n, v) {
        return Fail(InvalidParameters(InvalidityInfo(n, v)));
      }
      course := course.(name := newAttributes.name);
      course := course.(deletedAt := newAttributes.deletedAt);
      course := course.(timeZone := newAttributes.timeZone.id);
      courses := courses[opts.courseId := course];
      r := Ok(n);
    }

    /** deleteCourse: the course is gone afterwards; a missing one is no error. */
    method DeleteCourse(courseId: string)
      requires Valid()
      modifies this
      ensures Valid()
      ensures courses == old(courses) - {courseId}
    {
      courses := courses - {courseId};
    }
  }

  /** After a successful update the course reads back with the updated name, deletion time and
      time zone, provided ZoneId.of accepts the zone it wrote. */
  lemma UpdateReadsBack(e: CourseEntity, opts: UpdateOptions, now: Instant, later: Instant,
                        zoneOf: string -> Option<ZoneId>)
    requires var n := Updated(AttributesOf(e, now, zoneOf), opts); zoneOf(n.timeZone.id) == Some(n.timeZone)
    ensures var n := Updated(AttributesOf(e, now, zoneOf), opts);
            var c := AttributesOf(e.(name := n.name, deletedAt := n.deletedAt, timeZone := n.timeZone.id), later, zoneOf);
            c.name == n.name && c.deletedAt == n.deletedAt && c.timeZone == n.timeZone
            && c.id == e.uniqueId && c.createdAt == e.createdAt.GetOr(later)
  {
  }

  /** An update that sets no zone still writes the resolved zone: a stored zone id that
      ZoneId.of rejects is replaced by the default zone's id. */
  lemma UpdateRepairsUnsupportedZone(e: CourseEntity, opts: UpdateOptions, now: Instant,
                                     zoneOf: string -> Option<ZoneId>)
    requires opts.timeZone.None? && zoneOf(e.timeZone).None?
    ensures Updated(AttributesOf(e, now, zoneOf), opts).timeZone.id == Const.DEFAULT_TIME_ZONE
  {
  }

}
