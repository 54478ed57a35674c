# TEAMMATES core, modelled in Dafny

TEAMMATES is an online peer-feedback system for student teams. Instructors create courses, enrol
students into sections and teams, and run feedback sessions. A session is made of questions; the
participants give responses to those questions, and instructors and participants comment on the
responses. This project models the parts of TEAMMATES that define these entities, hold them in the
datastore, and show them to users. For each part it proves what the code promises.

The model covers:

- **Entity attributes**: sessions, questions, responses, response comments, students, instructors,
  courses, accounts and student profiles. This includes their defaults, builders, `update` with
  update options, copies, validity checks, orderings and predicates.
- **Storage**:
  - `FeedbackSessionsDb`: its queries and its update;
  - `CoursesDb`: get, update, delete, and the reading back of stored time zones;
  - `ProfilesDb`: get, update-or-create, delete, and picture-key deletion.
- **Logic**:
  - `StudentsLogic`: merging an enrolment list with the course's students, the enrolment checks
    on section size and team sections, and the update and delete cascades;
  - `InstructorsLogic`: the display check, new-instructor detection, the instructor lists, the
    email-change cascade and the Google-id reset.
- **Web API**:
  - `AccountController`: generating demo course ids;
  - `FeedbackSessionInfo`: the session's status and its mapping to and from the API's
    session record, and its validation;
  - basic comment submission;
  - the session response statistics;
  - `SessionResultsData`: the output built for a student's results page, the routing of comments,
    and the removal of anonymous-name hashes.
- **The results bundle and the course roster**: the tables of names, teams and sections each
  lookup reads; the visibility of givers and recipients; and the responses still missing.
- **Front end**: the session submission page, the session edit form, the per-question response
  view, contribution statistics, the submission-status-name pipe and the time-zone service.

Conventions of the model:

- A Java `null` is `None` of an `Option`. An exception a method throws is the failing case of an
  `Outcome` or `Result` (module `Common`).
- The current time is a parameter. Times are whole numbers of milliseconds since the epoch.
- Helpers whose code is not part of this model are function-typed parameters. These are the field validator, the sanitizer,
  name splitting, the time-zone database, the sample-course test and the JSON parser. Where a
  property depends on such a helper, the lemma states what it assumes of it as a `requires`.
- The sentinel instants of module `Const` are the source's dates (1970-01-01, 1970-02-14,
  1970-06-22, 1970-12-31 and 2011-01-01) in milliseconds. Const.java is not part of this model, so
  its strings are stand-ins, pairwise distinct, which is all the proofs use. The numeric limits are the source's own: 40 for the course id length, 100 for the
  section size, and the 30-day search window for ongoing sessions.
- An object whose fields the source updates in place is a `class` with those fields. This covers
  the attributes objects, the stores, the course roster, the results bundle, the contribution
  statistics and the front-end components. Each attributes class has a `State()` function that
  gives its fields as a datatype value. The pure operations (validation, ordering, lookups and
  predicates) are functions on that value, and the methods are specified by them.

## Model

| member | source | states |
|---|---|---|
| AccountAttributes.Built | src/main/java/teammates/common/datatransfer/attributes/AccountAttributes.java:58-95 | build() keeps the instructor flag and creation time and passes each present reference field through its sanitizer; absent fields stay null |
| AccountAttributes.Copy | src/main/java/teammates/common/datatransfer/attributes/AccountAttributes.java:102-110 | getCopy has no creation time, the same instructor flag, and a Google id and name exactly when the original has them |
| AccountAttributes.CopyOfBuilt | src/main/java/teammates/common/datatransfer/attributes/AccountAttributes.java:102-110 | with idempotent sanitizers the copy of a built account is that account without its creation time, and is registered exactly when it is |
| AccountAttributes.InvalidityInfo | src/main/java/teammates/common/datatransfer/attributes/AccountAttributes.java:137-152 | the errors are exactly the non-empty check messages; no errors exactly when every check passes |
| AccountAttributes.InvalidityInfoIgnoresFlagAndCreation | src/main/java/teammates/common/datatransfer/attributes/AccountAttributes.java:137-152 | two accounts differing only in instructor flag and creation time have the same errors |
| AccountAttributes.SanitizedForSaving | src/main/java/teammates/common/datatransfer/attributes/AccountAttributes.java:185-189 | only the Google id, name and institute change, and a null stays null |
| AccountAttributes.UpdateOptionsFor | src/main/java/teammates/common/datatransfer/attributes/AccountAttributes.java:205-244 | a null Google id fails the assertion; otherwise the options carry that id and the optional flag |
| AccountAttributes.Updated | src/main/java/teammates/common/datatransfer/attributes/AccountAttributes.java:198-200 | only the instructor flag changes, to the given value when present |
| AccountAttributes.UpdatedKeepsIdentity | src/main/java/teammates/common/datatransfer/attributes/AccountAttributes.java:191-200 | an update keeps registration, is idempotent, and without a flag changes nothing |
| AccountAttributes.AccountAttributes.constructor | src/main/java/teammates/common/datatransfer/attributes/AccountAttributes.java:29-31 | the empty object: every reference field null, not an instructor |
| AccountAttributes.AccountAttributes.GetCopy | src/main/java/teammates/common/datatransfer/attributes/AccountAttributes.java:102-110 | a fresh object whose state is Copy of this one |
| AccountAttributes.AccountAttributes.Update | src/main/java/teammates/common/datatransfer/attributes/AccountAttributes.java:198-200 | the new state is Updated of the old |
| AccountAttributes.AccountAttributes.SanitizeForSaving | src/main/java/teammates/common/datatransfer/attributes/AccountAttributes.java:185-189 | the new state is SanitizedForSaving of the old |
| AccountAttributes.Build | src/main/java/teammates/common/datatransfer/attributes/AccountAttributes.java:44-95 | a fresh object whose state is Built of the given fields |
| AccountController.DemoCourseIdRoot | src/main/java/teammates/ui/newcontroller/api/AccountController.java:165-175 | fails with an index out of bounds exactly when the email has no second "@" piece or a host shorter than three characters; otherwise the host abbreviation has three characters, the head only course-id characters or '_', and the root no "@" |
| AccountController.DemoCourseIdRootOfEmail | src/main/java/teammates/ui/newcontroller/api/AccountController.java:165-175 | for user@host the root is the user with illegal characters replaced by '_', ".", the host's first three characters and "-demo" |
| AccountController.GenerateNextDemoCourseId | src/main/java/teammates/ui/newcontroller/api/AccountController.java:193-209 | a proposal is never longer than the maximum; failures are index out of bounds or number format; an id ending in "-demo" gives a suffix of that id followed by "0" |
| AccountController.DemoSuffix | src/main/java/teammates/ui/newcontroller/api/AccountController.java:204-206 | the number after the last "-demo" parses as a 32-bit integer, or the parse fails |
| AccountController.DemoSuffixOf | src/main/java/teammates/ui/newcontroller/api/AccountController.java:204-206 | root + "-demo" + n splits back into root and n |
| AccountController.NextDemoCourseIds | src/main/java/teammates/ui/newcontroller/api/AccountController.java:193-209 | "-demo" is followed by "0", and "-demo" + n by n + 1, each truncated to the maximum |
| AccountController.ShortenedId | src/main/java/teammates/ui/newcontroller/api/AccountController.java:142-143 | the shortened proposal is at most the maximum, and is the whole proposal when it fits |
| AccountController.GenerateNextDemoCourseIdIntended | src/main/java/teammates/ui/newcontroller/api/AccountController.java:142-143 | the documented generator fails exactly when the one as written does, with the same failure, and never exceeds the maximum |
| AccountController.IntendedAgreesWhenShort | src/main/java/teammates/ui/newcontroller/api/AccountController.java:186-209 | when no cut is needed the documented and the written generators give the same proposal |
| AccountController.TruncateHeadDropsRootFront | src/main/java/teammates/ui/newcontroller/api/AccountController.java:193-209 | as written, a proposal one character too long loses the first character of its root |
| AccountController.IntendedDropsUsernameEnd | src/main/java/teammates/ui/newcontroller/api/AccountController.java:142-143 | as documented, the same proposal loses the last character of the username and keeps the host abbreviation |
| AccountController.DocumentedExampleAsWritten | src/main/java/teammates/ui/newcontroller/api/AccountController.java:190 | the documented example "012345678901234567890123456789.gma-demo9" yields "12345678901234567890123456789.gma-demo10", not the documented result |
| AccountController.DocumentedExampleIntended | src/main/java/teammates/ui/newcontroller/api/AccountController.java:190 | the corrected generator yields the documented "01234567890123456789012345678.gma-demo10" |
| AccountController.NextProposal | src/main/java/teammates/ui/newcontroller/api/AccountController.java:151-157 | every proposal the loop makes fits the course-id maximum |
| AccountController.ProposalLength | src/main/java/teammates/ui/newcontroller/api/AccountController.java:151-157 | every proposal the loop reaches fits the course-id maximum |
| AccountController.ProposeUntilFree | src/main/java/teammates/ui/newcontroller/api/AccountController.java:151-157 | the proposals before the result are all taken; the result is the next proposal, not taken, or the failure it threw, or a repeat of an earlier proposal |
| AccountController.GenerateDemoCourseId | src/main/java/teammates/ui/newcontroller/api/AccountController.java:151-157 | the first proposal from the email that is not an existing course id, of at most the maximum length, or the failure thrown, or the report that the proposals repeat |
| AccountController.LastDemoAfterRoot | src/main/java/teammates/ui/newcontroller/api/AccountController.java:204-206 | in root + "-demo" + digits, the last "-demo" starts right after the root |
| AccountController.SuffixParts | src/main/java/teammates/ui/newcontroller/api/AccountController.java:204-206 | root + "-demo" + n has no "@", does not end in "-demo", and splits back into root and n |
| AccountController.CutHead | src/main/java/teammates/ui/newcontroller/api/AccountController.java:142-143 | the documented cut keeps the tail and drops the end of the head, so that the result fits the maximum |
| AccountController.EmailAgrees | src/main/java/teammates/ui/newcontroller/api/AccountController.java:186-209 | for an email whose proposal fits with room to spare, the documented and the written generators agree |
| AccountController.SuffixAgrees | src/main/java/teammates/ui/newcontroller/api/AccountController.java:186-209 | for an id without "-demo" suffix whose proposal fits with room to spare, the two generators agree |
| AccountController.FirstDuplicateAgrees | src/main/java/teammates/ui/newcontroller/api/AccountController.java:186-209 | for an id ending in "-demo" whose proposal fits with room to spare, the two generators agree |
| AccountController.ShortenedAgrees | src/main/java/teammates/ui/newcontroller/api/AccountController.java:142-143 | when the written cut is shorter than the maximum, the documented cut is the same (also lines 193-209) |
| AccountController.DropFirst | src/main/java/teammates/ui/newcontroller/api/AccountController.java:193-209 | truncating a proposal one character too long drops the root's first character |
| AccountController.ExampleTexts | src/main/java/teammates/ui/newcontroller/api/AccountController.java:190 | the texts of the documented example, and that cutting the front and the end of the username differ |
| AccountController.DistinctWithin | src/main/java/teammates/ui/newcontroller/api/AccountController.java:151-157 | distinct taken ids are no more than the existing ids |
| AccountController.TakenTrailStep | src/main/java/teammates/ui/newcontroller/api/AccountController.java:151-157 | a taken proposal extends the trail of taken proposals by one |
| BasicCommentSubmission.ValidQuestionTypeForComment | src/main/java/teammates/ui/webapi/action/BasicCommentSubmissionAction.java:17-21 | passes exactly for MCQ and MSQ questions; otherwise an invalid-parameter error with the question-type message |
| BasicCommentSubmission.VerifyCommentNotExist | src/main/java/teammates/ui/webapi/action/BasicCommentSubmissionAction.java:26-34 | passes exactly when the response has no participant comment yet; otherwise an invalid-parameter error with the comment-exists message |
| BasicCommentSubmission.GiverEquals | src/main/java/teammates/ui/webapi/action/BasicCommentSubmissionAction.java:39-51 | comparing with a null giver throws; otherwise the answer is whether the two are equal |
| BasicCommentSubmission.VerifyResponseOwnershipForStudent | src/main/java/teammates/ui/webapi/action/BasicCommentSubmissionAction.java:39-51 | a team question passes exactly when the giver is the student's team, a student question exactly when it is the student's email, any other giver type always; a refusal names the student's team or name as the source does |
| BasicCommentSubmission.VerifyResponseOwnershipForInstructor | src/main/java/teammates/ui/webapi/action/BasicCommentSubmissionAction.java:56-62 | passes exactly when the giver is the instructor's email; a null giver throws, any other is unauthorized naming the instructor |
| BasicCommentSubmission.StudentAndInstructorOwnershipAgree | src/main/java/teammates/ui/webapi/action/BasicCommentSubmissionAction.java:39-62 | for a student-giver question a student and an instructor with the same email are accepted for the same responses |
| ContributionStatistics.Put | src/web/app/components/question-types/question-statistics/question-statistics-calculation/contribution-question-statistics-calculation.ts:58-74 | assigning a key of a record: that key reads the new value, every other key is unchanged, and a new key is appended to the key order |
| ContributionStatistics.RecordedKeys | src/web/app/components/question-types/question-statistics/question-statistics-calculation/contribution-question-statistics-calculation.ts:51-63 | an email is recorded exactly when some response has that recipient email and it is not empty |
| ContributionStatistics.NoTruthyYet | src/web/app/components/question-types/question-statistics/question-statistics-calculation/contribution-question-statistics-calculation.ts:57-62 | an email no response gives a truthy team (or name) for reads as falsy |
| ContributionStatistics.FirstTruthyKept | src/web/app/components/question-types/question-statistics/question-statistics-calculation/contribution-question-statistics-calculation.ts:57-62 | an email keeps the team (or name) of its first response with a truthy one |
| ContributionStatistics.DiffsFailExactly | src/web/app/components/question-types/question-statistics/question-statistics-calculation/contribution-question-statistics-calculation.ts:67-76 | the difference loop throws exactly when some recorded email has no statistics entry |
| ContributionStatistics.DiffsAsEntries | src/web/app/components/question-types/question-statistics/question-statistics-calculation/contribution-question-statistics-calculation.ts:67-76 | without a throw each recorded email gets perceived minus claimed, or the not-submitted marker when either is negative, and every other key keeps its earlier value |
| ContributionStatistics.StudentEntryFirst | src/web/app/components/question-types/question-statistics/question-statistics-calculation/contribution-question-statistics-calculation.ts:45-49 | a student sees the entry of the first key, or the all-zero default when there is none |
| ContributionStatistics.ContributionQuestionStatisticsCalculation.constructor | src/web/app/components/question-types/question-statistics/question-statistics-calculation/contribution-question-statistics-calculation.ts:17-27 | no statistics text, empty records, no overall or student statistics |
| ContributionStatistics.ContributionQuestionStatisticsCalculation.ParseStatistics | src/web/app/components/question-types/question-statistics/question-statistics-calculation/contribution-question-statistics-calculation.ts:29-79 | the records are reset; with no statistics or for a student only the student entry is set; for an instructor the team and name records, the overall statistics and the differences are as the specification functions say, and a throw comes exactly when an entry is missing |
| ContributionStatistics.RecordRecipients | src/web/app/components/question-types/question-statistics/question-statistics-calculation/contribution-question-statistics-calculation.ts:51-63 | the team and name records are those of Recorded over the responses |
| ContributionStatistics.RecordDiffs | src/web/app/components/question-types/question-statistics/question-statistics-calculation/contribution-question-statistics-calculation.ts:67-76 | the differences and the throw are those of DiffsFor |
| ContributionStatistics.DiffsStayFailed | src/web/app/components/question-types/question-statistics/question-statistics-calculation/contribution-question-statistics-calculation.ts:67-76 | once the loop has thrown, the later emails change nothing |
| ContributionStatistics.DiffsStep | src/web/app/components/question-types/question-statistics/question-statistics-calculation/contribution-question-statistics-calculation.ts:67-76 | each email with statistics adds its difference; a missing one fails |
| CourseAttributes.Defaults | src/main/java/teammates/common/datatransfer/attributes/CourseAttributes.java:33-38 | a new course has its id, no name, the default time zone, creation now and no deletion time |
| CourseAttributes.ResolvedZone | src/main/java/teammates/common/datatransfer/attributes/CourseAttributes.java:40-61 | a stored zone id that resolves is used, one that does not falls back to the default zone |
| CourseAttributes.AttributesOf | src/main/java/teammates/common/datatransfer/attributes/CourseAttributes.java:40-61 | valueOf keeps the id, name and deletion time, resolves the zone, falls back to now for a missing creation time, and is deleted exactly when the entity has a deletion time |
| CourseAttributes.ValueOfToEntity | src/main/java/teammates/common/datatransfer/attributes/CourseAttributes.java:40-61 | round trip: an entity made from a course reads back as that course when its zone id resolves (also lines 155-157) |
| CourseAttributes.ValueOfFallbacks | src/main/java/teammates/common/datatransfer/attributes/CourseAttributes.java:40-61 | an unresolvable zone and a missing creation time read back as the default zone and now, and write back as such |
| CourseAttributes.CompareTo | src/main/java/teammates/common/datatransfer/attributes/CourseAttributes.java:176-181 | against null the result is 0; otherwise negative exactly when this course is newer, zero exactly when created at the same instant |
| CourseAttributes.ByIdIsPreorder | src/main/java/teammates/common/datatransfer/attributes/CourseAttributes.java:183-185 | the id comparator is a total preorder |
| CourseAttributes.ByCreatedDateIsPreorder | src/main/java/teammates/common/datatransfer/attributes/CourseAttributes.java:187-190 | newest first, then by id, is a total preorder |
| CourseAttributes.CompareToAgreesWithCreatedDate | src/main/java/teammates/common/datatransfer/attributes/CourseAttributes.java:176-190 | compareTo puts a course first exactly when the creation-date sort does and the dates differ |
| CourseAttributes.SortByIdOrders | src/main/java/teammates/common/datatransfer/attributes/CourseAttributes.java:183-185 | sortById is a permutation ordered by id |
| CourseAttributes.SortByCreatedDateOrders | src/main/java/teammates/common/datatransfer/attributes/CourseAttributes.java:187-190 | sortByCreatedDate is a permutation, newest first, ties by id |
| CourseAttributes.InvalidityInfo | src/main/java/teammates/common/datatransfer/attributes/CourseAttributes.java:142-152 | exactly the non-empty ones of the id error and the name error, in that order |
| CourseAttributes.ValidIffChecksPass | src/main/java/teammates/common/datatransfer/attributes/CourseAttributes.java:142-152 | a course is valid exactly when both checks pass |
| CourseAttributes.Updated | src/main/java/teammates/common/datatransfer/attributes/CourseAttributes.java:195-199 | the id and creation time stay; the deletion time, name and zone take the given values when present |
| CourseAttributes.UpdatedIdempotent | src/main/java/teammates/common/datatransfer/attributes/CourseAttributes.java:195-199 | an update applied twice is applied once, and options with nothing set change nothing |
| CourseAttributes.ResetIsNotDeleted | src/main/java/teammates/common/datatransfer/attributes/CourseAttributes.java:129-135 | after resetting the deletion time a course is not deleted, and a deleted course changes |
| CourseAttributes.CourseAttributes.constructor | src/main/java/teammates/common/datatransfer/attributes/CourseAttributes.java:33-38 | the state is Defaults |
| CourseAttributes.CourseAttributes.ResetDeletedAt | src/main/java/teammates/common/datatransfer/attributes/CourseAttributes.java:129-131 | only the deletion time is cleared, and the course is not deleted |
| CourseAttributes.CourseAttributes.SetName | src/main/java/teammates/common/datatransfer/attributes/CourseAttributes.java:78-80 | only the name changes |
| CourseAttributes.CourseAttributes.SetTimeZone | src/main/java/teammates/common/datatransfer/attributes/CourseAttributes.java:137-139 | only the zone changes |
| CourseAttributes.CourseAttributes.Update | src/main/java/teammates/common/datatransfer/attributes/CourseAttributes.java:195-199 | the new state is Updated of the old |
| CourseAttributes.ValueOf | src/main/java/teammates/common/datatransfer/attributes/CourseAttributes.java:40-61 | a fresh object whose state is AttributesOf of the entity |
| CourseAttributes.Build | src/main/java/teammates/common/datatransfer/attributes/CourseAttributes.java:204-306 | a fresh object: the defaults with the builder's options applied |
| CourseRoster.StudentsByEmail | src/main/java/teammates/common/datatransfer/CourseRoster.java:100-109 | every student is keyed by its own email |
| CourseRoster.InstructorsByEmail | src/main/java/teammates/common/datatransfer/CourseRoster.java:111-120 | every instructor is keyed by its own email |
| CourseRoster.LastStudentWins | src/main/java/teammates/common/datatransfer/CourseRoster.java:100-109 | of students sharing an email the last one in the list is kept |
| CourseRoster.StudentKeys | src/main/java/teammates/common/datatransfer/CourseRoster.java:100-109 | an email is a key exactly when some student has it |
| CourseRoster.InstructorKeys | src/main/java/teammates/common/datatransfer/CourseRoster.java:111-120 | an email is an instructor key exactly when some instructor has it |
| CourseRoster.CourseRoster.constructor | src/main/java/teammates/common/datatransfer/CourseRoster.java:23-27 | the two maps are built from the lists (empty for a null list) and the team table lists each team's students |
| CourseRoster.CourseRoster.StudentInCourseIffListed | src/main/java/teammates/common/datatransfer/CourseRoster.java:50-52 | a roster built from a list knows a student exactly when some listed student has that email |
| CourseRoster.CourseRoster.InstructorOfCourseIffListed | src/main/java/teammates/common/datatransfer/CourseRoster.java:46-48 | a roster built from a list knows an instructor exactly when some listed instructor has that email |
| CourseRoster.CourseRoster.IsTeamInCourse | src/main/java/teammates/common/datatransfer/CourseRoster.java:57-59 | a team is in the course exactly when some student belongs to it |
| CourseRoster.CourseRoster.IsStudentInTeam | src/main/java/teammates/common/datatransfer/CourseRoster.java:61-64 | an unknown email is not in the team; a student with a null team throws; true exactly when the student's team is the non-null target |
| CourseRoster.CourseRoster.IsStudentsInSameTeam | src/main/java/teammates/common/datatransfer/CourseRoster.java:66-71 | true exactly when both students are known, the first has a team, and the second has the same team |
| CourseRoster.CourseRoster.SameTeamIsEquivalence | src/main/java/teammates/common/datatransfer/CourseRoster.java:66-71 | being in the same team is reflexive for students with a team, symmetric and transitive |
| CourseRoster.CourseRoster.SameTeamMeansSameTableEntry | src/main/java/teammates/common/datatransfer/CourseRoster.java:66-71 | two students in the same team are both listed under that team in the team table (also lines 122-128) |
| CourseRoster.CourseRoster.EmailToNameTable | src/main/java/teammates/common/datatransfer/CourseRoster.java:86-98 | every instructor and student email is a key; a student's name wins over an instructor's with the same email |
| CourseRoster.CourseRoster.InfoForIdentifier | src/main/java/teammates/common/datatransfer/CourseRoster.java:135-164 | a student's own name, team and section; else an instructor's name with the instructors' team and default section; else a team named as itself in the section of one of its students; else the nobody info |
| CourseRoster.TeamTable | src/main/java/teammates/common/datatransfer/CourseRoster.java:122-128 | the table lists, under each team, exactly the students of that team |
| CourseRoster.TableStep | src/main/java/teammates/common/datatransfer/CourseRoster.java:122-128 | adding one student to its team keeps the team table equal to the students handled so far |
| CoursesDb.FoundIds | src/main/java/teammates/storage/api/CoursesDb.java:47-51 | the ids looked up that are stored, each once (also lines 134-141) |
| CoursesDb.CoursesDb.constructor | src/main/java/teammates/storage/api/CoursesDb.java:41-51 | the store holds the given entities, each under its own id |
| CoursesDb.CoursesDb.GetCourse | src/main/java/teammates/storage/api/CoursesDb.java:41-45 | null exactly when no course has the id; otherwise the stored entity read back, with that id |
| CoursesDb.CoursesDb.GetCourses | src/main/java/teammates/storage/api/CoursesDb.java:47-51 | exactly the stored courses among the ids, each read as getCourse would, each once |
| CoursesDb.CoursesDb.UpdateCourse | src/main/java/teammates/storage/api/CoursesDb.java:69-95 | an unknown id fails and changes nothing; an invalid result fails with its errors and changes nothing; otherwise only the name, deletion time and zone of the stored entity are written and the updated course is returned |
| CoursesDb.CoursesDb.DeleteCourse | src/main/java/teammates/storage/api/CoursesDb.java:105-112 | the course with that id is gone and nothing else changes |
| CoursesDb.UpdateReadsBack | src/main/java/teammates/storage/api/CoursesDb.java:69-95 | round trip: the written entity reads back with the updated name, deletion time and zone |
| CoursesDb.UpdateRepairsUnsupportedZone | src/main/java/teammates/storage/api/CoursesDb.java:69-95 | an update without a zone over a stored zone that does not resolve writes the default zone |
| FeedbackQuestionAttributes.RecipientKinds | src/main/java/teammates/common/datatransfer/attributes/FeedbackQuestionAttributes.java:180-199 | an instructor recipient is neither a student nor hidden; SELF is a hidden student recipient, NONE a hidden non-student one, and SELF is the only hidden student recipient |
| FeedbackQuestionAttributes.IsResponseVisibleTo | src/main/java/teammates/common/datatransfer/attributes/FeedbackQuestionAttributes.java:201-203 | a null visibility list throws; otherwise true exactly when the user type is in the list |
| FeedbackQuestionAttributes.AreResponseDeletionsRequired | src/main/java/teammates/common/datatransfer/attributes/FeedbackQuestionAttributes.java:210-217 | a null new giver type throws, and so does a null new recipient type beside an unchanged giver type; otherwise a change of giver or recipient type requires deleting responses, and with both unchanged the question details decide |
| FeedbackQuestionAttributes.CompareTo | src/main/java/teammates/common/datatransfer/attributes/FeedbackQuestionAttributes.java:220-236 | compareTo(null) is 1, so the receiver is the greater; different numbers order by number; equal numbers compare the ids, throwing on a null id, and give 0 exactly for the same id |
| FeedbackQuestionAttributes.CompareToIsOrder | src/main/java/teammates/common/datatransfer/attributes/FeedbackQuestionAttributes.java:220-236 | with non-null ids compareTo is number-then-id, antisymmetric and a total preorder |
| FeedbackQuestionAttributes.Equals | src/main/java/teammates/common/datatransfer/attributes/FeedbackQuestionAttributes.java:271-363 | never equal to null; equal exactly when every field but the id is equal; a question equals itself |
| FeedbackQuestionAttributes.OptionsToRemove | src/main/java/teammates/common/datatransfer/attributes/FeedbackQuestionAttributes.java:403-435 | NONE recipients remove RECEIVER and RECEIVER_TEAM_MEMBERS, team-like recipients remove RECEIVER_TEAM_MEMBERS, team or instructor givers remove OWN_TEAM_MEMBERS, and nothing else is removed |
| FeedbackQuestionAttributes.RemoveAll | src/main/java/teammates/common/datatransfer/attributes/FeedbackQuestionAttributes.java:437-449 | List.removeAll keeps exactly the entries not among the options, in order |
| FeedbackQuestionAttributes.RemoveAllNothing | src/main/java/teammates/common/datatransfer/attributes/FeedbackQuestionAttributes.java:437-449 | removing options absent from the list leaves it unchanged |
| FeedbackQuestionAttributes.RemoveAllIfPresent | src/main/java/teammates/common/datatransfer/attributes/FeedbackQuestionAttributes.java:437-449 | a null list stays null, any other has the options removed |
| FeedbackQuestionAttributes.RemoveVisibilitiesAsWritten | src/main/java/teammates/common/datatransfer/attributes/FeedbackQuestionAttributes.java:437-449 | as written: throws exactly when the recipient-name list is present and the response list null; without a recipient-name list the response list is left unpruned |
| FeedbackQuestionAttributes.RemoveVisibilities | src/main/java/teammates/common/datatransfer/attributes/FeedbackQuestionAttributes.java:437-449 | corrected: each present list has the options removed, each guarded by its own null check |
| FeedbackQuestionAttributes.RemoveVisibilitiesProperties | src/main/java/teammates/common/datatransfer/attributes/FeedbackQuestionAttributes.java:437-449 | afterwards no list shows a removed type, every other type shown to responses stays, and pruning twice is pruning once |
| FeedbackQuestionAttributes.RemoveVisibilitiesAsWrittenKeepsReceiver | src/main/java/teammates/common/datatransfer/attributes/FeedbackQuestionAttributes.java:437-449 | a NONE-recipient question without a recipient-name list keeps RECEIVER in its response visibility as written, and loses it when corrected |
| FeedbackQuestionAttributes.Pruned | src/main/java/teammates/common/datatransfer/attributes/FeedbackQuestionAttributes.java:403-435 | only the visibility changes, and the types the recipient and giver make irrelevant are hidden from every present list (the corrected guard of Findings) |
| FeedbackQuestionAttributes.PrunedIsIdempotent | src/main/java/teammates/common/datatransfer/attributes/FeedbackQuestionAttributes.java:403-435 | removing the irrelevant options twice is removing them once |
| FeedbackQuestionAttributes.PrunedAsWritten | src/main/java/teammates/common/datatransfer/attributes/FeedbackQuestionAttributes.java:403-449 | as written: throws exactly when showRecipientNameTo is present and showResponsesTo is null; otherwise only the visibility changes |
| FeedbackQuestionAttributes.PrunedAsWrittenAgrees | src/main/java/teammates/common/datatransfer/attributes/FeedbackQuestionAttributes.java:403-449 | when showResponsesTo and showRecipientNameTo are both present or both null, the as-written pruning succeeds and equals the corrected one |
| FeedbackQuestionAttributes.ValuesUpdated | src/main/java/teammates/common/datatransfer/attributes/FeedbackQuestionAttributes.java:365-401 | the target keeps its own session and course, takes number, count and id from the new question, and takes metadata, description, question type, giver, recipient and each of the three visibility lists from the new question when present and from itself when null |
| FeedbackQuestionAttributes.ValuesUpdatedIsIdempotent | src/main/java/teammates/common/datatransfer/attributes/FeedbackQuestionAttributes.java:365-401 | updating values twice from the same question is updating once |
| FeedbackQuestionAttributes.Updated | src/main/java/teammates/common/datatransfer/attributes/FeedbackQuestionAttributes.java:585-598 | session, course, type and id stay; number, details, description, giver, recipient and count take the present options; each visibility list is the overwritten list without the entries that the new giver and recipient types make irrelevant |
| FeedbackQuestionAttributes.UpdatedIsPruned | src/main/java/teammates/common/datatransfer/attributes/FeedbackQuestionAttributes.java:585-598 | an updated question has no irrelevant visibility options left |
| FeedbackQuestionAttributes.UpdateWithoutOptions | src/main/java/teammates/common/datatransfer/attributes/FeedbackQuestionAttributes.java:585-598 | an update with no options only prunes, and is then idempotent |
| FeedbackQuestionAttributes.Sanitized | src/main/java/teammates/common/datatransfer/attributes/FeedbackQuestionAttributes.java:452-454 | only the description changes, and a null stays null |
| FeedbackQuestionAttributes.AttributesOf | src/main/java/teammates/common/datatransfer/attributes/FeedbackQuestionAttributes.java:61-87 | valueOf turns null visibility lists into empty ones and copies id, number, giver and recipient |
| FeedbackQuestionAttributes.FeedbackQuestionAttributes.SetState | src/main/java/teammates/common/datatransfer/attributes/FeedbackQuestionAttributes.java:48-52 | all fields are set to the given record |
| FeedbackQuestionAttributes.FeedbackQuestionAttributes.constructor | src/main/java/teammates/common/datatransfer/attributes/FeedbackQuestionAttributes.java:48-52 | the default field values |
| FeedbackQuestionAttributes.FeedbackQuestionAttributes.GetCopy | src/main/java/teammates/common/datatransfer/attributes/FeedbackQuestionAttributes.java:115-135 | throws exactly when one of the three visibility lists is null; otherwise a fresh object with the same state |
| FeedbackQuestionAttributes.FeedbackQuestionAttributes.UpdateValues | src/main/java/teammates/common/datatransfer/attributes/FeedbackQuestionAttributes.java:365-401 | the argument's new state is ValuesUpdated of its old state and this one |
| FeedbackQuestionAttributes.FeedbackQuestionAttributes.RemoveIrrelevantVisibilityOptions | src/main/java/teammates/common/datatransfer/attributes/FeedbackQuestionAttributes.java:403-435 | the new state is Pruned of the old |
| FeedbackQuestionAttributes.FeedbackQuestionAttributes.Update | src/main/java/teammates/common/datatransfer/attributes/FeedbackQuestionAttributes.java:585-598 | present details on a question without a type throw a NullPointer after only the number is applied (also lines 490-491); otherwise the new state is Updated of the old |
| FeedbackQuestionAttributes.FeedbackQuestionAttributes.SanitizeForSaving | src/main/java/teammates/common/datatransfer/attributes/FeedbackQuestionAttributes.java:452-454 | the new state is Sanitized of the old |
| FeedbackQuestionAttributes.ValueOf | src/main/java/teammates/common/datatransfer/attributes/FeedbackQuestionAttributes.java:61-87 | a fresh object whose state is AttributesOf of the entity |
| FeedbackQuestionAttributes.Build | src/main/java/teammates/common/datatransfer/attributes/FeedbackQuestionAttributes.java:604-790 | a fresh object: the defaults with session, course and type set and the options applied; no id |
| FeedbackResponseAttributes.QuestionTypeOf | src/main/java/teammates/common/datatransfer/attributes/FeedbackResponseAttributes.java:87-89 | the question type of the details; a missing response (null details) throws (also lines 207-209) |
| FeedbackResponseAttributes.InvalidityInfo | src/main/java/teammates/common/datatransfer/attributes/FeedbackResponseAttributes.java:136-146 | exactly the non-empty ones of the session-name error and the course-id error, in that order |
| FeedbackResponseAttributes.DeserializedDetails | src/main/java/teammates/common/datatransfer/attributes/FeedbackResponseAttributes.java:192-200 | text details are the stored text itself, any other type is parsed from JSON |
| FeedbackResponseAttributes.AttributesOf | src/main/java/teammates/common/datatransfer/attributes/FeedbackResponseAttributes.java:64-85 | valueOf copies the ids, session, course, question, giver, recipient and timestamps, defaults a null section to the default section, and holds the details read from the stored text (the text itself for a text question), so it is never a missing response |
| FeedbackResponseAttributes.Updated | src/main/java/teammates/common/datatransfer/attributes/FeedbackResponseAttributes.java:225-231 | id, session, course, question and time stamps stay; giver, recipient, sections and details take present options; new details make it no longer missing |
| FeedbackResponseAttributes.UpdateProperties | src/main/java/teammates/common/datatransfer/attributes/FeedbackResponseAttributes.java:225-231 | an update is idempotent, and an update setting every field that changes nothing means the fields already had those values |
| FeedbackResponseAttributes.Built | src/main/java/teammates/common/datatransfer/attributes/FeedbackResponseAttributes.java:218-280 | a built response has no id, the given course, session and question, default sections unless given, and is missing exactly when no details were given |
| FeedbackResponseAttributes.ByIdIsPreorder | src/main/java/teammates/common/datatransfer/attributes/FeedbackResponseAttributes.java:211-213 | the id comparator is a total preorder |
| FeedbackResponseAttributes.SortById | src/main/java/teammates/common/datatransfer/attributes/FeedbackResponseAttributes.java:211-213 | sorting throws exactly when a response has a null id; otherwise a permutation sorted by id |
| FeedbackResponseAttributes.SortedByIdAscends | src/main/java/teammates/common/datatransfer/attributes/FeedbackResponseAttributes.java:211-213 | in the sorted list each earlier id is at most each later one |
| FeedbackResponseAttributes.FeedbackResponseAttributes.SetState | src/main/java/teammates/common/datatransfer/attributes/FeedbackResponseAttributes.java:45-62 | all fields are set to the given record |
| FeedbackResponseAttributes.FeedbackResponseAttributes.constructor | src/main/java/teammates/common/datatransfer/attributes/FeedbackResponseAttributes.java:45-48 | the default field values |
| FeedbackResponseAttributes.FeedbackResponseAttributes.Copy | src/main/java/teammates/common/datatransfer/attributes/FeedbackResponseAttributes.java:50-62 | a missing response (null details) throws, as getResponseDetails deep-copies them; otherwise a fresh object with every field copied (also lines 184-186) |
| FeedbackResponseAttributes.FeedbackResponseAttributes.Update | src/main/java/teammates/common/datatransfer/attributes/FeedbackResponseAttributes.java:225-231 | the new state is Updated of the old |
| FeedbackResponseAttributes.ValueOf | src/main/java/teammates/common/datatransfer/attributes/FeedbackResponseAttributes.java:64-85 | a fresh object whose state is AttributesOf of the entity |
| FeedbackResponseAttributes.Build | src/main/java/teammates/common/datatransfer/attributes/FeedbackResponseAttributes.java:218-280 | a fresh object whose state is Built |
| FeedbackResponseCommentAttributes.Defaults | src/main/java/teammates/common/datatransfer/attributes/FeedbackResponseCommentAttributes.java:51-60 | a new comment: default sections, no visibility entries, following the question's visibility, created now, given by instructors, not from a participant |
| FeedbackResponseCommentAttributes.AttributesOf | src/main/java/teammates/common/datatransfer/attributes/FeedbackResponseCommentAttributes.java:62-101 | valueOf turns null lists into empty ones and null sections into the default, falls back to now for the creation time, to the giver for the last editor and to the creation time for the last edit |
| FeedbackResponseCommentAttributes.UneditedCommentReadsAsCreated | src/main/java/teammates/common/datatransfer/attributes/FeedbackResponseCommentAttributes.java:62-101 | a never-edited comment reads as last edited by its giver when it was created |
| FeedbackResponseCommentAttributes.Updated | src/main/java/teammates/common/datatransfer/attributes/FeedbackResponseCommentAttributes.java:293-302 | course, session, giver, question, id, creation time, giver type, participant flag and visibility flag stay; every other field takes the option when present |
| FeedbackResponseCommentAttributes.UpdatedVisibility | src/main/java/teammates/common/datatransfer/attributes/FeedbackResponseCommentAttributes.java:110-112 | after an update a comment is visible to a type exactly when the new show-to list names it, or as before when there is none (also lines 293-302) |
| FeedbackResponseCommentAttributes.Built | src/main/java/teammates/common/datatransfer/attributes/FeedbackResponseCommentAttributes.java:106-108 | the given course, session, giver and question, created now, no id, empty lists and default sections unless given (also lines 317-374) |
| FeedbackResponseCommentAttributes.ByCreatedAtIsPreorder | src/main/java/teammates/common/datatransfer/attributes/FeedbackResponseCommentAttributes.java:286-288 | the creation-time comparator is a total preorder |
| FeedbackResponseCommentAttributes.SortByCreationTime | src/main/java/teammates/common/datatransfer/attributes/FeedbackResponseCommentAttributes.java:286-288 | a permutation in ascending creation time |
| FeedbackResponseCommentAttributes.FeedbackResponseCommentAttributes.SetState | src/main/java/teammates/common/datatransfer/attributes/FeedbackResponseCommentAttributes.java:51-60 | all fields are set to the given record |
| FeedbackResponseCommentAttributes.FeedbackResponseCommentAttributes.constructor | src/main/java/teammates/common/datatransfer/attributes/FeedbackResponseCommentAttributes.java:51-60 | the state is Defaults |
| FeedbackResponseCommentAttributes.FeedbackResponseCommentAttributes.Update | src/main/java/teammates/common/datatransfer/attributes/FeedbackResponseCommentAttributes.java:293-302 | the new state is Updated of the old |
| FeedbackResponseCommentAttributes.ValueOf | src/main/java/teammates/common/datatransfer/attributes/FeedbackResponseCommentAttributes.java:62-101 | a fresh object whose state is AttributesOf of the entity |
| FeedbackResponseCommentAttributes.Build | src/main/java/teammates/common/datatransfer/attributes/FeedbackResponseCommentAttributes.java:106-108 | a fresh object whose state is Built (also lines 317-374) |
| FeedbackSessionAttributes.ActualVisibleTime | src/main/java/teammates/common/datatransfer/attributes/FeedbackSessionAttributes.java:320-329 | the visible-from time, or the start time when it follows the opening |
| FeedbackSessionAttributes.SessionPhasesPartition | src/main/java/teammates/common/datatransfer/attributes/FeedbackSessionAttributes.java:287-314 | for a session whose start is not after its end, every instant is waiting, open, in the grace period or closed, and no two of these hold together except as the source's overlapping tests allow |
| FeedbackSessionAttributes.PublishedBySentinel | src/main/java/teammates/common/datatransfer/attributes/FeedbackSessionAttributes.java:335-358 | LATER is never published, NOW always, FOLLOW_VISIBLE exactly when visible, a real instant once it has passed; a manually published session is published exactly when its time is NOW |
| FeedbackSessionAttributes.DescendingOrder | src/main/java/teammates/common/datatransfer/attributes/FeedbackSessionAttributes.java:27-51 | negative exactly when the first session ends later, or ends together and starts later, or both are equal and its name is smaller; zero exactly when end, start and name agree |
| FeedbackSessionAttributes.DescendingOrderByKey | src/main/java/teammates/common/datatransfer/attributes/FeedbackSessionAttributes.java:27-51 | the comparator reads only end, start and name |
| FeedbackSessionAttributes.DescendingOrderIsTotalPreorder | src/main/java/teammates/common/datatransfer/attributes/FeedbackSessionAttributes.java:27-51 | DESCENDING_ORDER is a total preorder, as a Comparator must be |
| FeedbackSessionAttributes.AddNonEmpty | src/main/java/teammates/common/datatransfer/attributes/FeedbackSessionAttributes.java:189-251 | a check's message is added to the errors exactly when it is not empty |
| FeedbackSessionAttributes.InvalidityInfo | src/main/java/teammates/common/datatransfer/attributes/FeedbackSessionAttributes.java:189-251 | with a required field null the errors are only the null-field messages of the first group |
| FeedbackSessionAttributes.NullCheckGrows | src/main/java/teammates/common/datatransfer/attributes/FeedbackSessionAttributes.java:189-251 | a null check appends the null-field message exactly when the value is null and the message not empty, keeping the earlier errors |
| FeedbackSessionAttributes.FirstGroupErrorsAreNullMessages | src/main/java/teammates/common/datatransfer/attributes/FeedbackSessionAttributes.java:189-251 | the first group only reports null-field messages |
| FeedbackSessionAttributes.FirstGroupErrorsNonEmpty | src/main/java/teammates/common/datatransfer/attributes/FeedbackSessionAttributes.java:189-251 | a missing required field is always reported |
| FeedbackSessionAttributes.InvalidityInfoStopsAtNullFields | src/main/java/teammates/common/datatransfer/attributes/FeedbackSessionAttributes.java:189-251 | with a required field null, validation stops at the null-field messages and reports at least one |
| FeedbackSessionAttributes.InvalidityInfoContentOrder | src/main/java/teammates/common/datatransfer/attributes/FeedbackSessionAttributes.java:189-251 | with the required fields present, the content checks come first, in order |
| FeedbackSessionAttributes.ValidSessionIsComplete | src/main/java/teammates/common/datatransfer/attributes/FeedbackSessionAttributes.java:189-256 | a valid session has every required field and passes the name, course, email, grace-period and start-end checks |
| FeedbackSessionAttributes.ChangeRespondentEmailEffect | src/main/java/teammates/common/datatransfer/attributes/FeedbackSessionAttributes.java:655-669 | an email change only acts when the old email is a respondent: then the new one is in, the old one out, and the rest unchanged |
| FeedbackSessionAttributes.EditRespondents | src/main/java/teammates/common/datatransfer/attributes/FeedbackSessionAttributes.java:651-669 | with no add, remove or change the respondents stay as they are |
| FeedbackSessionAttributes.EditRespondentSet | src/main/java/teammates/common/datatransfer/attributes/FeedbackSessionAttributes.java:651-669 | the in-place edit of the respondent set gives EditRespondents |
| FeedbackSessionAttributes.UpdatedEmails | src/main/java/teammates/common/datatransfer/attributes/FeedbackSessionAttributes.java:645-650 | the opening-email flag, which has no option, never changes |
| FeedbackSessionAttributes.Updated | src/main/java/teammates/common/datatransfer/attributes/FeedbackSessionAttributes.java:637-671 | the name, course, creator and creation time never change |
| FeedbackSessionAttributes.UpdatedWithoutOptions | src/main/java/teammates/common/datatransfer/attributes/FeedbackSessionAttributes.java:637-671 | an update with all options absent changes nothing |
| FeedbackSessionAttributes.Sanitized | src/main/java/teammates/common/datatransfer/attributes/FeedbackSessionAttributes.java:365-367 | only the instructions change, and a null stays null |
| FeedbackSessionAttributes.AttributesOf | src/main/java/teammates/common/datatransfer/attributes/FeedbackSessionAttributes.java:93-114 | valueOf copies every field, a null instructions text becoming "" |
| FeedbackSessionAttributes.FeedbackSessionAttributes.constructor | src/main/java/teammates/common/datatransfer/attributes/FeedbackSessionAttributes.java:80-91 | the builder's defaults: empty instructions, no times, the default zone, no grace period, email flags as in the source, no respondents |
| FeedbackSessionAttributes.FeedbackSessionAttributes.WithInstructions | src/main/java/teammates/common/datatransfer/attributes/FeedbackSessionAttributes.java:701-704 | the instructions, "" for null |
| FeedbackSessionAttributes.FeedbackSessionAttributes.WithCreatedAndDeletedTime | src/main/java/teammates/common/datatransfer/attributes/FeedbackSessionAttributes.java:706-718 | creation and deletion time take the given values when present |
| FeedbackSessionAttributes.FeedbackSessionAttributes.WithSchedule | src/main/java/teammates/common/datatransfer/attributes/FeedbackSessionAttributes.java:720-756 | each present time is taken; zone and grace period are set |
| FeedbackSessionAttributes.FeedbackSessionAttributes.WithRespondents | src/main/java/teammates/common/datatransfer/attributes/FeedbackSessionAttributes.java:793-807 | a null respondent list becomes the empty set |
| FeedbackSessionAttributes.FeedbackSessionAttributes.Update | src/main/java/teammates/common/datatransfer/attributes/FeedbackSessionAttributes.java:637-671 | the new state is Updated of the old |
| FeedbackSessionAttributes.FeedbackSessionAttributes.SanitizeForSaving | src/main/java/teammates/common/datatransfer/attributes/FeedbackSessionAttributes.java:365-367 | the new state is Sanitized of the old |
| FeedbackSessionAttributes.ValueOf | src/main/java/teammates/common/datatransfer/attributes/FeedbackSessionAttributes.java:93-114 | a fresh object whose state is AttributesOf of the entity |
| FeedbackSessionInfo.Response | src/main/java/teammates/ui/newcontroller/FeedbackSessionInfo.java:105-156 | the response's course id, time zone and session name, and its status, visibility settings, custom timestamps, publish status, times, grace period, instructions and email flags, each as the session's stored values determine |
| FeedbackSessionInfo.StatusByPhase | src/main/java/teammates/ui/newcontroller/FeedbackSessionInfo.java:105-156 | the submission status is OPEN, GRACE_PERIOD or CLOSED exactly in those phases, and VISIBLE_NOT_OPEN or NOT_VISIBLE while waiting, as the session is visible or not |
| FeedbackSessionInfo.SessionVisibleFromTime | src/main/java/teammates/ui/newcontroller/FeedbackSessionInfo.java:299-308 | AT_OPEN gives the follow-opening sentinel, CUSTOM the given timestamp, a missing setting fails |
| FeedbackSessionInfo.ResultsVisibleFromTime | src/main/java/teammates/ui/newcontroller/FeedbackSessionInfo.java:286-297 | AT_VISIBLE and LATER give their sentinels, CUSTOM the given timestamp, a missing setting fails |
| FeedbackSessionInfo.ValidationError | src/main/java/teammates/ui/newcontroller/FeedbackSessionInfo.java:359-379 | no message exactly when every check of validate passes |
| FeedbackSessionInfo.Validate | src/main/java/teammates/ui/newcontroller/FeedbackSessionInfo.java:359-379 | passes the request unchanged exactly when every check passes; otherwise an invalid-request-body failure |
| FeedbackSessionInfo.ValidRequestResolves | src/main/java/teammates/ui/newcontroller/FeedbackSessionInfo.java:286-308 | a validated request always gives both instants, custom ones positive (also lines 359-379) |
| FeedbackSessionInfo.ResponseRoundTrip | src/main/java/teammates/ui/newcontroller/FeedbackSessionInfo.java:105-156 | round trip: the request built from a session's response gives back the session's visible-from, results-visible-from, start and end times (also lines 286-308) |
| FeedbackSessionResultsBundle.Priority | src/main/java/teammates/common/datatransfer/FeedbackSessionResultsBundle.java:1215-1229 | the nobody name comes first (-1), the team name last (1), every other name in between |
| FeedbackSessionResultsBundle.CompareByNames | src/main/java/teammates/common/datatransfer/FeedbackSessionResultsBundle.java:1205-1233 | two hidden names are equal, a hidden name goes after a visible one; for two visible names a null throws, lower priority goes first, equal priority compares the names, and zero means equal names |
| FeedbackSessionResultsBundle.CompareByNamesAntisymmetric | src/main/java/teammates/common/datatransfer/FeedbackSessionResultsBundle.java:1205-1233 | swapping the arguments succeeds exactly when the original does and negates the result |
| FeedbackSessionResultsBundle.CompareByNamesIsOrder | src/main/java/teammates/common/datatransfer/FeedbackSessionResultsBundle.java:1205-1233 | the comparison of visible non-null names is a total preorder |
| FeedbackSessionResultsBundle.AppendTeamNameToName | src/main/java/teammates/common/datatransfer/FeedbackSessionResultsBundle.java:788-797 | the name is kept as a prefix; the team is appended in parentheses except for anonymous, unknown or nobody names or an empty team |
| FeedbackSessionResultsBundle.TeamsStep | src/main/java/teammates/common/datatransfer/FeedbackSessionResultsBundle.java:1159-1181 | adding one student keeps the student part of the team table exact |
| FeedbackSessionResultsBundle.InstructorsTeam | src/main/java/teammates/common/datatransfer/FeedbackSessionResultsBundle.java:1159-1181 | the student table plus the instructors' set under the instructors' pseudo team is a team-to-emails table |
| FeedbackSessionResultsBundle.PutInstructors | src/main/java/teammates/common/datatransfer/FeedbackSessionResultsBundle.java:1171-1179 | the instructors' emails under the instructors' pseudo team, when there are instructors |
| FeedbackSessionResultsBundle.TeamNameToEmailsTable | src/main/java/teammates/common/datatransfer/FeedbackSessionResultsBundle.java:1159-1181 | throws exactly when a student has a null email; otherwise each student team maps to its students' emails and the instructors' pseudo team to the instructors' emails |
| FeedbackSessionResultsBundle.StudentTeamsTable | src/main/java/teammates/common/datatransfer/FeedbackSessionResultsBundle.java:1162-1169 | throws exactly on a null student email; otherwise each team maps to the emails of its students |
| FeedbackSessionResultsBundle.SectionToTeamNames | src/main/java/teammates/common/datatransfer/FeedbackSessionResultsBundle.java:1183-1197 | each student section maps to exactly the teams found in it |
| FeedbackSessionResultsBundle.ActualTriplesStep | src/main/java/teammates/common/datatransfer/FeedbackSessionResultsBundle.java:336-350 | the answered triples grow by the triple of each response that has question, giver and recipient |
| FeedbackSessionResultsBundle.RemoveTriple | src/main/java/teammates/common/datatransfer/FeedbackSessionResultsBundle.java:347-349 | removing a recipient from a giver's set removes exactly that triple |
| FeedbackSessionResultsBundle.WithoutAnswered | src/main/java/teammates/common/datatransfer/FeedbackSessionResultsBundle.java:336-350 | the first loop leaves exactly the expected triples that have no actual response |
| FeedbackSessionResultsBundle.MissingResponse | src/main/java/teammates/common/datatransfer/FeedbackSessionResultsBundle.java:362-371 | the pseudo response carries the triple, course, session and sections, no id, and the missing-response text as details |
| FeedbackSessionResultsBundle.MissingResponsesFor | src/main/java/teammates/common/datatransfer/FeedbackSessionResultsBundle.java:352-378 | the second loop fails on a triple whose giver or recipient has no section; otherwise one pseudo response per missing triple |
| FeedbackSessionResultsBundle.DisplayedName | src/main/java/teammates/common/datatransfer/FeedbackSessionResultsBundle.java:673-697 | the missing marker or no name reads as unknown, the nobody marker as nobody, the team marker as the team name, any other name as itself |
| FeedbackSessionResultsBundle.Lookup | src/main/java/teammates/common/datatransfer/FeedbackSessionResultsBundle.java:673-705 | a table lookup of a null key, or an absent key, is null |
| FeedbackSessionResultsBundle.FeedbackSessionResultsBundle.constructor | src/main/java/teammates/common/datatransfer/FeedbackSessionResultsBundle.java:256-329 | the tables, responses, responses before hiding and roster are those given; the missing responses and the roster tables start empty and are filled by BuildMissingResponses and BuildRosterTables |
| FeedbackSessionResultsBundle.FeedbackSessionResultsBundle.IsFeedbackParticipantVisible | src/main/java/teammates/common/datatransfer/FeedbackSessionResultsBundle.java:428-444 | throws when the response or its question is unknown; otherwise visible when the visibility table says so or the giver (or recipient) type is NONE |
| FeedbackSessionResultsBundle.FeedbackSessionResultsBundle.TeamNameForEmail | src/main/java/teammates/common/datatransfer/FeedbackSessionResultsBundle.java:699-705 | an unknown email or the general-question email reads as nobody, any other as its team name |
| FeedbackSessionResultsBundle.FeedbackSessionResultsBundle.NameForEmail | src/main/java/teammates/common/datatransfer/FeedbackSessionResultsBundle.java:673-684 | the name table read through DisplayedName |
| FeedbackSessionResultsBundle.FeedbackSessionResultsBundle.LastNameForEmail | src/main/java/teammates/common/datatransfer/FeedbackSessionResultsBundle.java:686-697 | the last-name table read through DisplayedName |
| FeedbackSessionResultsBundle.FeedbackSessionResultsBundle.DisplayedNamesHideMarkers | src/main/java/teammates/common/datatransfer/FeedbackSessionResultsBundle.java:673-705 | when team names are real names, a displayed name or last name is never one of the internal markers |
| FeedbackSessionResultsBundle.FeedbackSessionResultsBundle.HasResponseFromInstructor | src/main/java/teammates/common/datatransfer/FeedbackSessionResultsBundle.java:1339-1348 | true exactly when some response's giver is an instructor and not a student |
| FeedbackSessionResultsBundle.FeedbackSessionResultsBundle.BuildRosterTables | src/main/java/teammates/common/datatransfer/FeedbackSessionResultsBundle.java:278-329 | throws exactly on a null student email; otherwise both roster tables are exact (also lines 1159-1197) |
| FeedbackSessionResultsBundle.FeedbackSessionResultsBundle.TeamMembersFromRoster | src/main/java/teammates/common/datatransfer/FeedbackSessionResultsBundle.java:625-627 | with the table built, the instructors' emails for their pseudo team, otherwise the emails of the team's students |
| FeedbackSessionResultsBundle.FeedbackSessionResultsBundle.TeamsInSectionFromRoster | src/main/java/teammates/common/datatransfer/FeedbackSessionResultsBundle.java:635-637 | with the table built, the teams of the section's students |
| FeedbackSessionResultsBundle.FeedbackSessionResultsBundle.BuildMissingResponses | src/main/java/teammates/common/datatransfer/FeedbackSessionResultsBundle.java:336-379 | one pseudo response per expected triple that has no actual response; fails when a participant has no section |
| FeedbackSessionsDb.Saved | src/main/java/teammates/storage/api/FeedbackSessionsDb.java:206-271 | the written entity has the new attributes and keeps the stored deletion time, respondent lists, name and course |
| FeedbackSessionsDb.SkippedWriteIsSameAsWrite | src/main/java/teammates/storage/api/FeedbackSessionsDb.java:253-256 | skipping the write when nothing changed leaves the store as writing would |
| FeedbackSessionsDb.ByStartTimeIsTotalPreorder | src/main/java/teammates/storage/api/FeedbackSessionsDb.java:82-111 | the start-time comparator is a total preorder |
| FeedbackSessionsDb.FeedbackSessionsDb.constructor | src/main/java/teammates/storage/api/FeedbackSessionsDb.java:65-77 | the store holds the given sessions, each under its own name and course |
| FeedbackSessionsDb.FeedbackSessionsDb.GetFeedbackSession | src/main/java/teammates/storage/api/FeedbackSessionsDb.java:65-77 | null exactly when the session is absent or soft-deleted; otherwise the stored session read back |
| FeedbackSessionsDb.FeedbackSessionsDb.GetSoftDeletedFeedbackSession | src/main/java/teammates/storage/api/FeedbackSessionsDb.java:118-131 | null exactly when the session is absent or not soft-deleted; otherwise the stored session read back |
| FeedbackSessionsDb.FeedbackSessionsDb.GettersSplitStoredSessions | src/main/java/teammates/storage/api/FeedbackSessionsDb.java:65-131 | no session is returned by both getters, and a stored session is returned by one of them |
| FeedbackSessionsDb.FeedbackSessionsDb.GetFeedbackSessionsForCourse | src/main/java/teammates/storage/api/FeedbackSessionsDb.java:136-142 | only the course's sessions that are not deleted |
| FeedbackSessionsDb.FeedbackSessionsDb.GetSoftDeletedFeedbackSessionsForCourse | src/main/java/teammates/storage/api/FeedbackSessionsDb.java:147-153 | only the course's soft-deleted sessions |
| FeedbackSessionsDb.FeedbackSessionsDb.CourseListsPartition | src/main/java/teammates/storage/api/FeedbackSessionsDb.java:136-153 | the two course lists are disjoint and together give every session of the course |
| FeedbackSessionsDb.FeedbackSessionsDb.PossiblyNeedingOpenEmail | src/main/java/teammates/storage/api/FeedbackSessionsDb.java:159-163 | only live sessions without the open email sent that start after two days before now (also lines 341-346) |
| FeedbackSessionsDb.FeedbackSessionsDb.PossiblyNeedingClosingEmail | src/main/java/teammates/storage/api/FeedbackSessionsDb.java:169-173 | only live sessions with closing email enabled and not sent that end after two days before now (also lines 348-354) |
| FeedbackSessionsDb.FeedbackSessionsDb.PossiblyNeedingClosedEmail | src/main/java/teammates/storage/api/FeedbackSessionsDb.java:179-183 | only live sessions with closing email enabled and the closed email not sent that end after two days before now (also lines 356-362) |
| FeedbackSessionsDb.FeedbackSessionsDb.PossiblyNeedingPublishedEmail | src/main/java/teammates/storage/api/FeedbackSessionsDb.java:189-193 | only live sessions with published email enabled and not sent (also lines 364-369) |
| FeedbackSessionsDb.FeedbackSessionsDb.RemindersSkipSoftDeleted | src/main/java/teammates/storage/api/FeedbackSessionsDb.java:159-193 | a soft-deleted session is in none of the reminder lists |
| FeedbackSessionsDb.FeedbackSessionsDb.OngoingSessionsCover | src/main/java/teammates/storage/api/FeedbackSessionsDb.java:40-58 | a session that starts within the search window before the range and ends after the range start is found; every session found starts or ends near the range |
| FeedbackSessionsDb.FeedbackSessionsDb.GetFeedbackSessionsWithinTimeRange | src/main/java/teammates/storage/api/FeedbackSessionsDb.java:82-111 | the live sessions starting, ending or publishing in the range, each once, sorted by start time |
| FeedbackSessionsDb.FeedbackSessionsDb.FoundIsWithinRange | src/main/java/teammates/storage/api/FeedbackSessionsDb.java:82-111 | the union of the three queries without deleted sessions is exactly the sessions in the range |
| FeedbackSessionsDb.FeedbackSessionsDb.SoftDeleteFeedbackSession | src/main/java/teammates/storage/api/FeedbackSessionsDb.java:278-293 | an unknown session fails and changes nothing; otherwise only its deletion time is set to now, and it is then soft-deleted rather than live |
| FeedbackSessionsDb.FeedbackSessionsDb.RestoreDeletedFeedbackSession | src/main/java/teammates/storage/api/FeedbackSessionsDb.java:298-311 | an unknown session fails and changes nothing; otherwise only its deletion time is cleared, and it is then live |
| FeedbackSessionsDb.FeedbackSessionsDb.DeleteFeedbackSession | src/main/java/teammates/storage/api/FeedbackSessionsDb.java:316-321 | the session is gone and nothing else changes |
| FeedbackSessionsDb.FeedbackSessionsDb.DeleteFeedbackSessions | src/main/java/teammates/storage/api/FeedbackSessionsDb.java:326-335 | exactly the sessions of the queried course are gone, the others unchanged |
| FeedbackSessionsDb.FeedbackSessionsDb.UpdateFeedbackSession | src/main/java/teammates/storage/api/FeedbackSessionsDb.java:206-271 | an unknown session fails with a message ending in the options' text; an invalid result fails with its errors; an unchanged result is returned without a write; otherwise the saved entity is written and returned |
| FeedbackSessionsDb.SortThenFilter | src/main/java/teammates/storage/api/FeedbackSessionsDb.java:102-110 | sorting then dropping deleted sessions gives a sorted list, each once, of the live sessions |
| FeedbackSessionsDb.SortedKeepsDistinct | src/main/java/teammates/storage/api/FeedbackSessionsDb.java:102-108 | a permutation of a list without duplicates has none |
| FeedbackSessionsDb.DistinctCount | src/main/java/teammates/storage/api/FeedbackSessionsDb.java:102-108 | a list without duplicates holds each element at most once |
| InstructorAttributes.Defaults | src/main/java/teammates/common/datatransfer/attributes/InstructorAttributes.java:44-53 | a new instructor is a co-owner with co-owner privileges and the default displayed name, not archived, displayed to students and not registered |
| InstructorAttributes.RegisteredIffNotBlank | src/main/java/teammates/common/datatransfer/attributes/InstructorAttributes.java:135-137 | an instructor is registered exactly when the Google ID is present and not blank |
| InstructorAttributes.AttributesOf | src/main/java/teammates/common/datatransfer/attributes/InstructorAttributes.java:62-87 | valueOf copies the entity's fields; a missing role becomes co-owner, a missing displayed name the default, and missing privilege text the role's default privileges |
| InstructorAttributes.UpdatedBasic | src/main/java/teammates/common/datatransfer/attributes/InstructorAttributes.java:267-287 | each basic option that is set replaces its field; unset options keep the old value; the keys are never changed; empty options change nothing |
| InstructorAttributes.UpdatedWithEmail | src/main/java/teammates/common/datatransfer/attributes/InstructorAttributes.java:267-270 | an update keyed by email keeps email and course and applies the Google ID and basic options (also lines 321-326) |
| InstructorAttributes.UpdatedWithGoogleId | src/main/java/teammates/common/datatransfer/attributes/InstructorAttributes.java:275-278 | an update keyed by Google ID keeps Google ID and course and applies the email and basic options (also lines 447-452) |
| InstructorAttributes.UpdatesAreIdempotent | src/main/java/teammates/common/datatransfer/attributes/InstructorAttributes.java:267-287 | applying the same update twice gives the same record as applying it once |
| InstructorAttributes.UpdateKindsAgree | src/main/java/teammates/common/datatransfer/attributes/InstructorAttributes.java:267-287 | with no key-specific change, the two update kinds agree with the basic update |
| InstructorAttributes.Sanitized | src/main/java/teammates/common/datatransfer/attributes/InstructorAttributes.java:178-199 | after sanitizing, role, displayed name and privileges are present with co-owner defaults, the others go through their sanitizers and the flags and key are kept |
| InstructorAttributes.EffectivePrivileges | src/main/java/teammates/common/datatransfer/attributes/InstructorAttributes.java:201-230 | a privilege query reads the stored privileges, or co-owner privileges when none are stored |
| InstructorAttributes.ByNameIsPreorder | src/main/java/teammates/common/datatransfer/attributes/InstructorAttributes.java:25-26 | COMPARE_BY_NAME is a total preorder |
| InstructorAttributes.ByNameIgnoresCase | src/main/java/teammates/common/datatransfer/attributes/InstructorAttributes.java:25-26 | names differing only in case compare equal |
| InstructorAttributes.SortByName | src/main/java/teammates/common/datatransfer/attributes/InstructorAttributes.java:25-26 | sorting throws exactly when a name is null; otherwise the result is sorted by lower-cased name and is a permutation of the input (also InstructorsLogic.java:123) |
| InstructorAttributes.InstructorAttributes.constructor | src/main/java/teammates/common/datatransfer/attributes/InstructorAttributes.java:44-53 | the new object holds the defaults for its course and email |
| InstructorAttributes.InstructorAttributes.GetCopy | src/main/java/teammates/common/datatransfer/attributes/InstructorAttributes.java:89-101 | the copy is a new object with the same field values |
| InstructorAttributes.InstructorAttributes.UpdateBasic | src/main/java/teammates/common/datatransfer/attributes/InstructorAttributes.java:280-287 | the fields become the basic update of the old fields |
| InstructorAttributes.InstructorAttributes.UpdateWithEmail | src/main/java/teammates/common/datatransfer/attributes/InstructorAttributes.java:267-270 | the fields become the email-keyed update of the old fields |
| InstructorAttributes.InstructorAttributes.UpdateWithGoogleId | src/main/java/teammates/common/datatransfer/attributes/InstructorAttributes.java:275-278 | the fields become the Google-ID-keyed update of the old fields |
| InstructorAttributes.InstructorAttributes.SanitizeForSaving | src/main/java/teammates/common/datatransfer/attributes/InstructorAttributes.java:178-199 | the fields become the sanitized old fields |
| InstructorAttributes.InstructorAttributes.IsAllowedForPrivilege | src/main/java/teammates/common/datatransfer/attributes/InstructorAttributes.java:201-230 | missing privileges are reset to co-owner privileges, nothing else changes, and the answer is the privileges' answer to the query |
| InstructorAttributes.ValueOf | src/main/java/teammates/common/datatransfer/attributes/InstructorAttributes.java:62-87 | a new object holding the entity's attributes |
| InstructorAttributes.Build | src/main/java/teammates/common/datatransfer/attributes/InstructorAttributes.java:58-60 | a new object with the defaults, the given keys, and the builder's options applied (also lines 311-333) |
| InstructorsLogic.DisplayedCountReplace | src/main/java/teammates/logic/core/InstructorsLogic.java:189-200 | replacing one instructor changes the displayed count by the difference of the two visibilities |
| InstructorsLogic.VerifyAtLeastOneDisplayed | src/main/java/teammates/logic/core/InstructorsLogic.java:189-200 | a failure carries the "at least one instructor" message; an edited instructor who stays displayed always passes |
| InstructorsLogic.DisplayCheckMeaning | src/main/java/teammates/logic/core/InstructorsLogic.java:189-200 | verifyAtLeastOneInstructorIsDisplayed throws nothing exactly when, after the edit, at least one of the course's instructors is displayed to students (also lines 211-227) |
| InstructorsLogic.IsNewInstructor | src/main/java/teammates/logic/core/InstructorsLogic.java:165-169 | an instructor is new exactly when they have at most one record and every record is in a sample course |
| InstructorsLogic.VerifyIsEmailOfInstructorOfCourse | src/main/java/teammates/logic/core/InstructorsLogic.java:153-156 | passes exactly when the course has an instructor with that email; otherwise fails naming both (also lines 180-187) |
| InstructorsLogic.CoOwnersMembers | src/main/java/teammates/logic/core/InstructorsLogic.java:354-364 | an instructor is listed as co-owner exactly when they are in the course list and their privileges are co-owner privileges |
| InstructorsLogic.CoOwnersSorted | src/main/java/teammates/logic/core/InstructorsLogic.java:354-364 | filtering keeps the order by name |
| InstructorsLogic.InstructorsForCourse | src/main/java/teammates/logic/core/InstructorsLogic.java:121-126 | fails exactly when a name is null; otherwise the course's instructors, sorted by name |
| InstructorsLogic.SelectCoOwners | src/main/java/teammates/logic/core/InstructorsLogic.java:354-364 | fails exactly when some privileges are null; otherwise the co-owners in list order |
| InstructorsLogic.CoOwnersForCourse | src/main/java/teammates/logic/core/InstructorsLogic.java:121-126 | fails exactly when a name or privilege set is null; otherwise exactly the course's co-owners, sorted by name (also lines 354-364) |
| InstructorsLogic.SameElements | src/main/java/teammates/logic/core/InstructorsLogic.java:121-126 | a permutation has the same members and the same null privileges |
| InstructorsLogic.UpdateByEmailInStore | src/test/java/teammates/test/cases/storage/InstructorsDbTest.java:345-406 | a missing key fails as non-existent; an invalid update fails with its errors; otherwise only that record is updated |
| InstructorsLogic.ResetInstructorGoogleIdAsWritten | src/main/java/teammates/logic/core/InstructorsLogic.java:369-378 | as written, the store key looked up is the email used as course id and email |
| InstructorsLogic.ResetAsWrittenMissesInstructor | src/main/java/teammates/logic/core/InstructorsLogic.java:369-378 | as written, an existing instructor whose email is not also a course id is reported missing |
| InstructorsLogic.ResetAsWrittenCounterexample | src/main/java/teammates/logic/core/InstructorsLogic.java:369-378 | a registered instructor of CS101 cannot be reset as written |
| InstructorsLogic.ResetInstructorGoogleId | src/main/java/teammates/logic/core/InstructorsLogic.java:369-378 | intended form: a missing instructor fails as non-existent, an invalid update as an assertion failure |
| InstructorsLogic.ResetUnregistersInstructor | src/main/java/teammates/logic/core/InstructorsLogic.java:369-378 | intended form: the instructor's Google ID is cleared, so they are no longer registered, and every other record is unchanged |
| InstructorsLogic.GiverSteps | src/main/java/teammates/logic/core/InstructorsLogic.java:233-249 | one giver rewrite to the new email for exactly the responses whose question is given by instructors or self |
| InstructorsLogic.RecipientSteps | src/main/java/teammates/logic/core/InstructorsLogic.java:250-267 | one recipient rewrite for exactly the responses whose question goes to instructors, or from instructors to self |
| InstructorsLogic.EmailChangeSteps | src/main/java/teammates/logic/core/InstructorsLogic.java:231-274 | the cascade ends with the comment-email update and then the respondent update |
| InstructorsLogic.CascadeEmailChange | src/main/java/teammates/logic/core/InstructorsLogic.java:231-274 | the loops issue exactly the cascade steps the specification lists |
| InstructorsLogic.UpdateInstructorByGoogleIdCascade | src/main/java/teammates/logic/core/InstructorsLogic.java:211-277 | a missing instructor fails as non-existent; a failed display check or store update fails with its error and nothing cascades; on success the stored record is returned, nothing cascades if the email is unchanged, otherwise the full cascade |
| InstructorsLogic.UpdateInstructorByEmail | src/main/java/teammates/logic/core/InstructorsLogic.java:286-305 | a missing instructor fails as non-existent; success returns the store's result; an edit that stays displayed goes straight to the store |
| ProfilesDb.NewEntity | src/main/java/teammates/storage/api/ProfilesDb.java:46-49 | a profile created for a missing Google ID has no picture and is modified now |
| ProfilesDb.AttributesOf | src/main/java/teammates/storage/api/ProfilesDb.java:162-166 | reading an entity keeps its keys, replaces a null "more info" by "", an unknown gender by "other" and a null date by now (also StudentProfileAttributes.java:47-58) |
| ProfilesDb.NewEntityReadsAsDefaults | src/main/java/teammates/storage/api/ProfilesDb.java:46-51 | a newly created profile reads as the default profile |
| ProfilesDb.Written | src/main/java/teammates/storage/api/ProfilesDb.java:63-73 | the write takes the candidate's field values, the lower-cased gender and the current time, and keeps the Google ID |
| ProfilesDb.ProfilesDb.constructor | src/main/java/teammates/storage/api/ProfilesDb.java:32-34 | the store holds the given profiles, each under its own Google ID |
| ProfilesDb.ProfilesDb.GetStudentProfile | src/main/java/teammates/storage/api/ProfilesDb.java:32-34 | null exactly when no profile is stored for the Google ID; otherwise the stored profile read back (also lines 137-141) |
| ProfilesDb.ProfilesDb.UpdateOrCreateStudentProfile | src/main/java/teammates/storage/api/ProfilesDb.java:42-75 | an invalid candidate fails with its errors and writes nothing; a candidate with no new changes is returned without a write; otherwise the written profile replaces or creates the stored one and is returned |
| ProfilesDb.ProfilesDb.DeleteStudentProfile | src/main/java/teammates/storage/api/ProfilesDb.java:90-101 | the profile is gone, and its picture is deleted exactly when it had one |
| ProfilesDb.ProfilesDb.DeletePictureKey | src/main/java/teammates/storage/api/ProfilesDb.java:117-126 | an existing profile loses its picture key and is modified now; a missing one changes nothing |
| ProfilesDb.WrittenReadsBack | src/main/java/teammates/storage/api/ProfilesDb.java:63-75 | a written profile reads back as the candidate with the write's time |
| ProfilesDb.SkippedWriteKeepsEverything | src/main/java/teammates/storage/api/ProfilesDb.java:59-61 | when the write is skipped, the stored profile equals the candidate apart from the modification time (also lines 77-83) |
| ProfilesDb.EmptyUpdateCreatesNothing | src/main/java/teammates/storage/api/ProfilesDb.java:42-61 | an update with no options for a missing profile finds no new changes (also lines 77-83) |
| StudentProfileAttributes.Defaults | src/main/java/teammates/common/datatransfer/attributes/StudentProfileAttributes.java:35-45 | a new profile has every text field empty, gender "other", and is modified now |
| StudentProfileAttributes.GenderOrOther | src/main/java/teammates/common/datatransfer/attributes/StudentProfileAttributes.java:216-219 | the gender is male, female or other; a valid gender is kept and any other becomes other (also lines 244-246) |
| StudentProfileAttributes.WithArgs | src/main/java/teammates/common/datatransfer/attributes/StudentProfileAttributes.java:183-238 | each text setter sanitizes and sets its field when given a value and keeps the old value otherwise; the gender becomes the given male or female, and "other" for a null or any other value; the date becomes the given one, and now for a null (also lines 47-58) |
| StudentProfileAttributes.Built | src/main/java/teammates/common/datatransfer/attributes/StudentProfileAttributes.java:64-66 | building without a Google ID fails; otherwise unset fields are empty, the gender is one of the three and the date defaults to now (also lines 240-242) |
| StudentProfileAttributes.BuiltWithoutArgumentsIsDefault | src/main/java/teammates/common/datatransfer/attributes/StudentProfileAttributes.java:64-66 | a builder with no setters gives the default profile (also lines 183-186) |
| StudentProfileAttributes.Copy | src/main/java/teammates/common/datatransfer/attributes/StudentProfileAttributes.java:68-79 | the copy keeps the Google ID, date, more info and picture key and normalises the gender |
| StudentProfileAttributes.CopyOfBuilt | src/main/java/teammates/common/datatransfer/attributes/StudentProfileAttributes.java:68-79 | with stable sanitizers a built profile's copy equals it |
| StudentProfileAttributes.UpdateMessage | src/main/java/teammates/common/datatransfer/attributes/StudentProfileAttributes.java:82-102 | several empty fields give the generic message; a single empty field names it; none gives "" |
| StudentProfileAttributes.UpdateMessageIgnoresOtherFields | src/main/java/teammates/common/datatransfer/attributes/StudentProfileAttributes.java:82-97 | the message depends only on the five checked fields |
| StudentProfileAttributes.Checks | src/main/java/teammates/common/datatransfer/attributes/StudentProfileAttributes.java:105-137 | the Google ID check comes first and the gender check last, with the optional field checks between |
| StudentProfileAttributes.InvalidityInfo | src/main/java/teammates/common/datatransfer/attributes/StudentProfileAttributes.java:105-137 | the errors are exactly the non-empty check results, the Google ID error first |
| StudentProfileAttributes.UnspecifiedFieldsAreAccepted | src/main/java/teammates/common/datatransfer/attributes/StudentProfileAttributes.java:112-131 | empty optional fields are not checked: only the Google ID and gender can fail |
| StudentProfileAttributes.MoreInfoIsNotValidated | src/main/java/teammates/common/datatransfer/attributes/StudentProfileAttributes.java:105-137 | "more info" never causes an error |
| StudentProfileAttributes.LastSet | src/main/java/teammates/common/datatransfer/attributes/StudentProfileAttributes.java:299-350 | the value of a field is the last setter's value, and absent exactly when no setter names it |
| StudentProfileAttributes.WithOption | src/main/java/teammates/common/datatransfer/attributes/StudentProfileAttributes.java:303-350 | a setter sets its own option and leaves the others |
| StudentProfileAttributes.UpdateOptionsOf | src/main/java/teammates/common/datatransfer/attributes/StudentProfileAttributes.java:265-267 | building fails exactly when the Google ID or a setter value is null; otherwise each option holds the last value set (also lines 283-354) |
| StudentProfileAttributes.Updated | src/main/java/teammates/common/datatransfer/attributes/StudentProfileAttributes.java:252-260 | each set option replaces its field; the keys and date are kept |
| StudentProfileAttributes.UpdatedIdempotent | src/main/java/teammates/common/datatransfer/attributes/StudentProfileAttributes.java:252-260 | applying the same update twice equals applying it once |
| StudentProfileAttributes.SanitizedForSaving | src/main/java/teammates/common/datatransfer/attributes/StudentProfileAttributes.java:171-173 | only the Google ID is sanitized |
| StudentProfileAttributes.StudentProfileAttributes.constructor | src/main/java/teammates/common/datatransfer/attributes/StudentProfileAttributes.java:35-45 | the new object holds the defaults |
| StudentProfileAttributes.StudentProfileAttributes.WithShortName | src/main/java/teammates/common/datatransfer/attributes/StudentProfileAttributes.java:188-193 | only the short name changes, to the sanitized value when given |
| StudentProfileAttributes.StudentProfileAttributes.WithEmail | src/main/java/teammates/common/datatransfer/attributes/StudentProfileAttributes.java:195-200 | only the email changes, to the sanitized value when given |
| StudentProfileAttributes.StudentProfileAttributes.WithInstitute | src/main/java/teammates/common/datatransfer/attributes/StudentProfileAttributes.java:202-207 | only the institute changes, to the sanitized value when given |
| StudentProfileAttributes.StudentProfileAttributes.WithNationality | src/main/java/teammates/common/datatransfer/attributes/StudentProfileAttributes.java:209-214 | only the nationality changes, to the sanitized value when given |
| StudentProfileAttributes.StudentProfileAttributes.WithGender | src/main/java/teammates/common/datatransfer/attributes/StudentProfileAttributes.java:216-219 | only the gender changes, to the given valid gender or other |
| StudentProfileAttributes.StudentProfileAttributes.WithMoreInfo | src/main/java/teammates/common/datatransfer/attributes/StudentProfileAttributes.java:221-226 | only "more info" changes, when given |
| StudentProfileAttributes.StudentProfileAttributes.WithPictureKey | src/main/java/teammates/common/datatransfer/attributes/StudentProfileAttributes.java:228-233 | only the picture key changes, when given |
| StudentProfileAttributes.StudentProfileAttributes.WithModifiedDate | src/main/java/teammates/common/datatransfer/attributes/StudentProfileAttributes.java:235-238 | only the date changes, to the given one or now |
| StudentProfileAttributes.StudentProfileAttributes.GetCopy | src/main/java/teammates/common/datatransfer/attributes/StudentProfileAttributes.java:68-79 | a new object holding the copy |
| StudentProfileAttributes.StudentProfileAttributes.Update | src/main/java/teammates/common/datatransfer/attributes/StudentProfileAttributes.java:252-260 | the fields become the update of the old fields |
| StudentProfileAttributes.StudentProfileAttributes.SanitizeForSaving | src/main/java/teammates/common/datatransfer/attributes/StudentProfileAttributes.java:171-173 | the fields become the sanitized old fields |
| StudentProfileAttributes.Build | src/main/java/teammates/common/datatransfer/attributes/StudentProfileAttributes.java:64-66 | a new object holding the built profile (also lines 183-242) |
| SessionEditForm.TextCarriesFormFields | src/web/app/components/session-edit-form/session-edit-form.component.ts:253-261 | the local date-time text built from the form's date and time parses back to the same year, month, day, hour and minute |
| SessionEditForm.WarningFor | src/web/app/components/session-edit-form/session-edit-form.component.ts:262-287 | a warning is raised exactly when the resolution reports a gap or an overlap, and names the field and the status |
| SessionEditForm.BasicModelZone | src/web/app/components/session-edit-form/session-edit-form.component.ts:142-185 | the form adopts the model's time zone exactly when it is offered or already the form's; a form zone in the offered set stays in it |
| SessionEditForm.LoadedTimestampsResubmitted | src/web/app/components/session-edit-form/session-edit-form.component.ts:142-202 | each timestamp loaded into the form, shown in the form's zone, gives the local text that is resubmitted |
| SessionEditForm.ShownTimestampResubmitted | src/web/app/components/session-edit-form/session-edit-form.component.ts:187-202 | a timestamp shown in the form reads back as that timestamp's local date-time text (also lines 253-261) |
| SessionEditForm.SessionEditForm.constructor | src/web/app/components/session-edit-form/session-edit-form.component.ts:107 | the form starts with the initial fields, editable, not saving, panels collapsed and blank statuses |
| SessionEditForm.SessionEditForm.SetBasicModel | src/web/app/components/session-edit-form/session-edit-form.component.ts:142-185 | the fields become the loaded model; the visibility panel is open exactly when a visibility setting is not the default, the email panel exactly when an email is disabled |
| SessionEditForm.SessionEditForm.SetEditModel | src/web/app/components/session-edit-form/session-edit-form.component.ts:115-119 | as SetBasicModel, and the submission and publish statuses are set |
| SessionEditForm.SessionEditForm.SetIsEditable | src/web/app/components/session-edit-form/session-edit-form.component.ts:124-126 | only the editable flag is set |
| SessionEditForm.SessionEditForm.SetIsSaving | src/web/app/components/session-edit-form/session-edit-form.component.ts:131-133 | only the saving flag is set |
| SessionEditForm.SessionEditForm.SetAddModel | src/web/app/components/session-edit-form/session-edit-form.component.ts:138-140 | as SetBasicModel |
| SessionEditForm.SessionEditForm.GetTimestamp | src/web/app/components/session-edit-form/session-edit-form.component.ts:253-289 | corrected (Findings): the timestamp is the one the local date-time resolves to in the form's zone, with a warning exactly for a gap or an overlap |
| SessionEditForm.SessionEditForm.SubmitFormHandler | src/web/app/components/session-edit-form/session-edit-form.component.ts:207-248 | corrected (Findings): an add form emits an add event with course, name, template and the submitted model, an edit form an edit event; the warnings are those of the opening and closing times and of each custom visibility time |
| SessionEditForm.TimestampAsWritten | src/web/app/components/session-edit-form/session-edit-form.component.ts:262-288 | as written: fails with a TypeError exactly for a gap or an overlap, whose warning calls `format` on the module (lines 3, 272, 278); otherwise the resolved timestamp |
| SessionEditForm.TimestampAsWrittenFailsOnWarning | src/web/app/components/session-edit-form/session-edit-form.component.ts:262-288 | as written, getTimestamp fails exactly when the corrected one warns, and otherwise gives the same timestamp |
| SessionEditForm.GapTimestampCounterexample | src/web/app/components/session-edit-form/session-edit-form.component.ts:270-274 | a date-time in a gap fails as written, while the corrected getTimestamp warns and gives the resolved timestamp |
| SessionEditForm.AsWrittenFailsOnWarning | src/web/app/components/session-edit-form/session-edit-form.component.ts:209-217 | some getTimestamp of a submission fails as written exactly when the corrected ones show a warning, the visibility times counting only when custom |
| SessionEditForm.SessionEditForm.GetTimestampAsWritten | src/web/app/components/session-edit-form/session-edit-form.component.ts:253-289 | as written: the same request, failing with a TypeError for a gap or an overlap |
| SessionEditForm.SessionEditForm.SubmittedAsWrittenFailsOnWarning | src/web/app/components/session-edit-form/session-edit-form.component.ts:207-235 | as written, the submitted model fails exactly when the corrected handler shows a warning, and otherwise is the corrected model |
| SessionEditForm.SessionEditForm.SubmitFormHandlerAsWritten | src/web/app/components/session-edit-form/session-edit-form.component.ts:207-248 | as written: a TypeError when a resolution is a gap or an overlap, and otherwise the event of the form's mode with the submitted model |
| SessionResponseStats.AnyGiver | src/main/java/teammates/ui/webapi/action/GetSessionResponseStatsAction.java:50-51 | true only if some question is answered by that giver type, false only if every question has a different giver type, and a null giver type throws (also lines 57-58, lines 63-64) |
| SessionResponseStats.ExpectedMembers | src/main/java/teammates/ui/webapi/action/GetSessionResponseStatsAction.java:45-66 | an email is expected exactly when it is a student's and students answer some question, the creator's and the creator answers one, or an instructor's and instructors answer one |
| SessionResponseStats.SubmittedAtMostExpected | src/main/java/teammates/ui/webapi/action/GetSessionResponseStatsAction.java:68-71 | the submitted count never exceeds the expected count, and equals it exactly when every expected respondent has answered |
| SessionResponseStats.IntersectionCard | src/main/java/teammates/ui/webapi/action/GetSessionResponseStatsAction.java:71 | the intersection is no larger than the expected set, and as large exactly when every expected respondent is a giver |
| SessionResponseStats.AddAll | src/main/java/teammates/ui/webapi/action/GetSessionResponseStatsAction.java:53 | the set gains exactly the listed emails (also lines 65) |
| SessionResponseStats.Execute | src/main/java/teammates/ui/webapi/action/GetSessionResponseStatsAction.java:40-73 | the action's result is the specified statistics, or the NullPointer failure |
| SessionResultsData.LeadingDigits | src/main/java/teammates/ui/webapi/output/SessionResultsData.java:33 | the count of leading digits, at most the limit, stopping before the first non-digit |
| SessionResultsData.DigitsInPlace | src/main/java/teammates/ui/webapi/output/SessionResultsData.java:33 | the digit run after a tag is all digits, at most ten long, and ends at a non-digit, the limit or the end (also lines 92-95) |
| SessionResultsData.MatchWith | src/main/java/teammates/ui/webapi/output/SessionResultsData.java:92-95 | a match of the pattern after a given tag covers one to ten digits, as many as are there |
| SessionResultsData.MatchAt | src/main/java/teammates/ui/webapi/output/SessionResultsData.java:92-95 | no match exactly when no tag starts the pattern here; otherwise a match for that tag |
| SessionResultsData.RemoveAnonymousHash | src/main/java/teammates/ui/webapi/output/SessionResultsData.java:92-95 | removing the hashes never lengthens the text |
| SessionResultsData.RemoveAnonymousHashKeepsNamesWithoutDigits | src/main/java/teammates/ui/webapi/output/SessionResultsData.java:92-95 | a name without digits is unchanged |
| SessionResultsData.HashStartUnique | src/main/java/teammates/ui/webapi/output/SessionResultsData.java:92-95 | at most one of student, instructor and team starts a match at a position |
| SessionResultsData.GreedyRunUnique | src/main/java/teammates/ui/webapi/output/SessionResultsData.java:33 | the greedy digit run after a tag has one length |
| SessionResultsData.RemoveAnonymousHashDropsHash | src/main/java/teammates/ui/webapi/output/SessionResultsData.java:92-95 | a tag followed by its longest digit run loses the space and the digits, the rest being processed in turn |
| SessionResultsData.RemoveAnonymousHashExample | src/main/java/teammates/ui/webapi/output/SessionResultsData.java:92-95 | "Anonymous student 1234567890" becomes "Anonymous student" |
| SessionResultsData.LastParticipantComment | src/main/java/teammates/ui/webapi/output/SessionResultsData.java:200-219 | no participant comment exactly when none comes from a participant; otherwise the last one that does |
| SessionResultsData.ParticipantStep | src/main/java/teammates/ui/webapi/output/SessionResultsData.java:205-209 | a new participant comment replaces the previous one; an instructor comment leaves it |
| SessionResultsData.InstructorStep | src/main/java/teammates/ui/webapi/output/SessionResultsData.java:210-214 | a new instructor comment is appended to the instructor outputs |
| SessionResultsData.OutputsSnoc | src/main/java/teammates/ui/webapi/output/SessionResultsData.java:211-213 | the outputs of a list with one more comment end with that comment's output |
| SessionResultsData.BuildComments | src/main/java/teammates/ui/webapi/output/SessionResultsData.java:200-219 | the queue is the last participant comment, or null, followed by the instructor comments in order |
| SessionResultsData.CommentsOfResponse | src/main/java/teammates/ui/webapi/output/SessionResultsData.java:144 | polling the queue gives the participant comment, and the rest are the instructor comments in order (also lines 150) |
| SessionResultsData.RecipientLabelIdentifies | src/main/java/teammates/ui/webapi/output/SessionResultsData.java:109-119 | the recipient is shown as "You" exactly when it is the student, and as "Your Team (...)" exactly when it is the student's team on a team question |
| SessionResultsData.GiverLabelIdentifies | src/main/java/teammates/ui/webapi/output/SessionResultsData.java:122-133 | the giver is shown as "You" exactly when it is the student and not the student's team, and keeps its name otherwise |
| SessionResultsData.ShownRecipientNameStep | src/main/java/teammates/ui/webapi/output/SessionResultsData.java:135-139 | a response given by the student to another recipient switches the shown recipient name to the real name |
| SessionResultsData.StudentGroupOutputsLength | src/main/java/teammates/ui/webapi/output/SessionResultsData.java:121-151 | one output per response of the group |
| SessionResultsData.StudentGroupOutputsAt | src/main/java/teammates/ui/webapi/output/SessionResultsData.java:121-151 | the k-th output is built from the k-th response with the recipient name as set by the responses up to it |
| SessionResultsData.BuildStudentGroup | src/main/java/teammates/ui/webapi/output/SessionResultsData.java:108-152 | the loop builds exactly the specified outputs of the group |
| SessionResultsData.RecipientGroupsByKey | src/main/java/teammates/ui/webapi/output/SessionResultsData.java:100-104 | every group holds just the responses to its key |
| SessionResultsData.AddToGroupAt | src/main/java/teammates/ui/webapi/output/SessionResultsData.java:103 | adding a response keeps each group equal to the responses so far to its key |
| SessionResultsData.GroupStep | src/main/java/teammates/ui/webapi/output/SessionResultsData.java:102-104 | adding a response keeps the map a grouping of the responses so far |
| SessionResultsData.GroupByRecipient | src/main/java/teammates/ui/webapi/output/SessionResultsData.java:100-104 | the map groups the responses by recipient, each group in input order |
| SessionResultsData.GroupsInOrderStep | src/main/java/teammates/ui/webapi/output/SessionResultsData.java:108 | adding a recipient to the order appends its group's outputs |
| SessionResultsData.BuildGroups | src/main/java/teammates/ui/webapi/output/SessionResultsData.java:106-154 | the groups are visited once each, in some order, and the outputs are each group's outputs in that order |
| SessionResultsData.BuildStudentResponses | src/main/java/teammates/ui/webapi/output/SessionResultsData.java:97-155 | the output is every response, grouped by recipient in some order without repeats |
| SessionResultsData.UnhashedSnoc | src/main/java/teammates/ui/webapi/output/SessionResultsData.java:76-77 | removing hashes distributes over appending |
| SessionResultsData.OtherToSnoc | src/main/java/teammates/ui/webapi/output/SessionResultsData.java:78 | filtering by original recipient distributes over appending |
| SessionResultsData.OtherRecipientsSnoc | src/main/java/teammates/ui/webapi/output/SessionResultsData.java:73-78 | a new response for others adds its recipient to the keys |
| SessionResultsData.NoOthersTo | src/main/java/teammates/ui/webapi/output/SessionResultsData.java:78 | no response goes to a recipient that is not a key |
| SessionResultsData.AddOtherAt | src/main/java/teammates/ui/webapi/output/SessionResultsData.java:76-78 | adding a response keeps its key's list equal to the responses to that recipient, hashes removed |
| SessionResultsData.OthersAdd | src/main/java/teammates/ui/webapi/output/SessionResultsData.java:75-79 | adding a response for others keeps the map a grouping by original recipient |
| SessionResultsData.OthersKeep | src/main/java/teammates/ui/webapi/output/SessionResultsData.java:71-74 | a response from or to the student leaves the map unchanged |
| SessionResultsData.RouteForStudent | src/main/java/teammates/ui/webapi/output/SessionResultsData.java:70-80 | responses from the student, responses to the student, and every other response grouped by its recipient with hashes removed, each in order |
| SessionResultsData.StudentQuestionView | src/main/java/teammates/ui/webapi/output/SessionResultsData.java:62-85 | when individual responses are hidden, every list is empty; otherwise the three lists route the student's responses |
| SessionResultsData.TeamInCourseHasMembers | src/main/java/teammates/common/datatransfer/CourseRoster.java:57-59 | a team is in the course exactly when the team table has it |
| SessionResultsData.MissingGiverIdentityAsWritten | src/main/java/teammates/ui/webapi/output/SessionResultsData.java:229-240 | as written, a team giver throws when no student is in the null team, and otherwise is given a student of the null team |
| SessionResultsData.MissingGiverIdentityAsWrittenFailsForTeams | src/main/java/teammates/ui/webapi/output/SessionResultsData.java:229-240 | as written, a team giver in a course where every student has a team throws |
| SessionResultsData.MissingGiverIdentity | src/main/java/teammates/ui/webapi/output/SessionResultsData.java:229-240 | intended: a hidden giver has no emails; a visible non-team giver is its own email; a visible team giver has no email and a member of the team as related email |
| SessionSubmissionPage.NewQuestionForm | src/web/app/pages-session/session-submission-page/session-submission-page.component.ts:170-209 | a loaded question's form copies the question's identity and settings, has no recipients or forms yet, and a custom number of 0 when none is given |
| SessionSubmissionPage.FormModeOf | src/web/app/pages-session/session-submission-page/session-submission-page.component.ts:261-271 | the mode is flexible exactly when the recipients are students, teams or instructors, the number of recipients is custom, and more recipients are listed than the custom number |
| SessionSubmissionPage.FirstMatching | src/web/app/pages-session/session-submission-page/session-submission-page.component.ts:290-299 | the first existing response for the recipient, or none exactly when no response is for it |
| SessionSubmissionPage.FixedFormsMatch | src/web/app/pages-session/session-submission-page/session-submission-page.component.ts:287-301 | one form per recipient: a recipient with a response gets its first response, one without gets a blank form |
| SessionSubmissionPage.FlexibleFormsShape | src/web/app/pages-session/session-submission-page/session-submission-page.component.ts:303-325 | every existing response gets its form in order, then blank forms up to the custom number |
| SessionSubmissionPage.FlexibleFewerThanRecipients | src/web/app/pages-session/session-submission-page/session-submission-page.component.ts:261-271 | in flexible mode with few responses, the form count is the custom number, below the number of recipients (also lines 303-325) |
| SessionSubmissionPage.PreviewFormsBlank | src/web/app/pages-session/session-submission-page/session-submission-page.component.ts:240-251 | one blank form per recipient in preview, without recipient in flexible mode |
| SessionSubmissionPage.BuildFixedForms | src/web/app/pages-session/session-submission-page/session-submission-page.component.ts:287-301 | the loop builds exactly the fixed forms |
| SessionSubmissionPage.BuildFlexibleForms | src/web/app/pages-session/session-submission-page/session-submission-page.component.ts:303-325 | the loop builds exactly the flexible forms |
| SessionSubmissionPage.BuildPreviewForms | src/web/app/pages-session/session-submission-page/session-submission-page.component.ts:240-251 | the loop builds exactly the preview forms |
| SessionSubmissionPage.Classify | src/web/app/pages-session/session-submission-page/session-submission-page.component.ts:357-424 | no request exactly for a new empty form; delete exactly for an existing empty one; update for an existing filled one and create for a new filled one, with the form's recipient and details |
| SessionSubmissionPage.QuestionRequestsCount | src/web/app/pages-session/session-submission-page/session-submission-page.component.ts:357-424 | at most one request per form, and one for each form when every form is existing or filled |
| SessionSubmissionPage.OrEmpty | src/web/app/pages-session/session-submission-page/session-submission-page.component.ts:89-101 | a missing or empty query parameter reads as "", any other as itself |
| SessionSubmissionPage.SessionSubmissionPage.constructor | src/web/app/pages-session/session-submission-page/session-submission-page.component.ts:60-79 | the page starts with no identifiers, status open, no forms, confirmation on, and neither saving nor disabled |
| SessionSubmissionPage.SessionSubmissionPage.OnQueryParams | src/web/app/pages-session/session-submission-page/session-submission-page.component.ts:89-108 | the query parameters are stored, missing ones as "", and a preview disables the forms |
| SessionSubmissionPage.SessionSubmissionPage.LoadFeedbackSession | src/web/app/pages-session/session-submission-page/session-submission-page.component.ts:113-165 | the status is stored, and a session not yet open or closed disables the forms unless moderated |
| SessionSubmissionPage.SessionSubmissionPage.LoadFeedbackQuestions | src/web/app/pages-session/session-submission-page/session-submission-page.component.ts:170-209 | a form for each question is appended, in order, and the old forms are kept |
| SessionSubmissionPage.SessionSubmissionPage.LoadParticipants | src/web/app/pages-session/session-submission-page/session-submission-page.component.ts:223-256 | the recipients are appended to the question's list; responses are loaded next exactly when not previewing, and a preview appends blank forms instead |
| SessionSubmissionPage.SessionSubmissionPage.LoadFeedbackResponses | src/web/app/pages-session/session-submission-page/session-submission-page.component.ts:276-327 | the question's forms gain the loaded forms, and a confirmation email stays due only while no response exists |
| SessionSubmissionPage.SessionSubmissionPage.SaveFeedbackResponses | src/web/app/pages-session/session-submission-page/session-submission-page.component.ts:342-473 | the requests are those of every form of every question, the questions not fully answered are exactly those with some form whose details are empty, and the page is saving |
| SessionSubmissionPage.QuestionSaving | src/web/app/pages-session/session-submission-page/session-submission-page.component.ts:348-424 | the question is fully answered exactly as specified, and its requests are those of all its forms |
| StudentAttributes.Defaults | src/main/java/teammates/common/datatransfer/attributes/StudentAttributes.java:41-50 | a new student belongs to the given course and email, is in the default section and is not registered |
| StudentAttributes.RegisteredIffNotBlank | src/main/java/teammates/common/datatransfer/attributes/StudentAttributes.java:110-112 | a student is registered exactly when the Google ID is present and not blank |
| StudentAttributes.StudentStatus | src/main/java/teammates/common/datatransfer/attributes/StudentAttributes.java:282-287 | the status is "Joined" exactly when the student is registered, and "Yet to join" otherwise |
| StudentAttributes.EnrollmentStringSplits | src/main/java/teammates/common/datatransfer/attributes/StudentAttributes.java:100-108 | with comments and no separator in the fields, splitting the enrollment line gives back its five columns; without comments Java's split drops the trailing empty column |
| StudentAttributes.JoinFive | src/main/java/teammates/common/datatransfer/attributes/StudentAttributes.java:100-108 | joining five columns puts the separator between each pair |
| StudentAttributes.IdInjective | src/main/java/teammates/common/datatransfer/attributes/StudentAttributes.java:157-159 | two students have the same id exactly when they have the same email and course, if neither contains the separator |
| StudentAttributes.EqualsChain | src/main/java/teammates/common/datatransfer/attributes/StudentAttributes.java:173-180 | the chain of equals calls throws only on a null receiver, and is true exactly when every receiver is present and equal to its argument |
| StudentAttributes.IsEnrollInfoSameAs | src/main/java/teammates/common/datatransfer/attributes/StudentAttributes.java:173-180 | a null other gives false; a throw needs another student; true exactly when the other's enrollment fields are present and equal to this student's |
| StudentAttributes.EnrollInfoSameIsEquivalence | src/main/java/teammates/common/datatransfer/attributes/StudentAttributes.java:173-180 | on students with complete enrollment fields, the comparison does not throw, is reflexive and is symmetric |
| StudentAttributes.InvalidityInfo | src/main/java/teammates/common/datatransfer/attributes/StudentAttributes.java:183-208 | a null team or comments fails the assertion; otherwise the errors are exactly the non-empty check results, none exactly when every check passes |
| StudentAttributes.Updated | src/main/java/teammates/common/datatransfer/attributes/StudentAttributes.java:329-340 | an update sets each given field (email, name, Google ID, comments, team and section) and keeps each field whose option is absent, derives the last name from a new name when no last name is given, and keeps course, key and timestamps |
| StudentAttributes.UpdatedIdempotent | src/main/java/teammates/common/datatransfer/attributes/StudentAttributes.java:329-340 | an empty update changes nothing, and the same update twice equals it once |
| StudentAttributes.UpdatedChanges | src/main/java/teammates/common/datatransfer/attributes/StudentAttributes.java:308-324 | after an update, section, team and email count as changed exactly when the update gives a different value (also lines 329-340) |
| StudentAttributes.WithExistingRecord | src/main/java/teammates/common/datatransfer/attributes/StudentAttributes.java:226-250 | filling from the existing record keeps course, last name, key and timestamps |
| StudentAttributes.WithExistingRecordProperties | src/main/java/teammates/common/datatransfer/attributes/StudentAttributes.java:226-250 | filling twice equals filling once, a complete record is untouched except its Google ID, and the changed tests are unaffected (also lines 308-324) |
| StudentAttributes.Sanitized | src/main/java/teammates/common/datatransfer/attributes/StudentAttributes.java:276-280 | only Google ID, name and comments are sanitized, and each stays present or absent |
| StudentAttributes.AttributesOf | src/main/java/teammates/common/datatransfer/attributes/StudentAttributes.java:52-73 | valueOf gives a present Google ID, section and timestamps, using the entity's value when one is stored, and copies the rest |
| StudentAttributes.BySectionIsPreorder | src/main/java/teammates/common/datatransfer/attributes/StudentAttributes.java:210-214 | ordering by section, team and name is a total preorder |
| StudentAttributes.ByTeamIsPreorder | src/main/java/teammates/common/datatransfer/attributes/StudentAttributes.java:216-219 | ordering by team and name is a total preorder |
| StudentAttributes.ByNameThenEmailIsPreorder | src/main/java/teammates/common/datatransfer/attributes/StudentAttributes.java:221-224 | ordering by name and email is a total preorder |
| StudentAttributes.SortedList | src/main/java/teammates/common/datatransfer/attributes/StudentAttributes.java:210-224 | throws exactly when two different elements agree on their first p keys and one of them has a null key p, the first key the comparator would dereference for them; otherwise the result is sorted and a permutation |
| StudentAttributes.SortBySectionName | src/main/java/teammates/common/datatransfer/attributes/StudentAttributes.java:210-214 | throws exactly when the comparator would meet a null section, or a null team of students of one section, or a null name of students of one section and team; otherwise sorted by section, team and name, and a permutation |
| StudentAttributes.LaterKeysReadOnlyOnTies | src/main/java/teammates/common/datatransfer/attributes/StudentAttributes.java:210-214 | two students in different, present sections are sorted by section without their teams or names being read, whatever those are |
| StudentAttributes.SortByTeamName | src/main/java/teammates/common/datatransfer/attributes/StudentAttributes.java:216-219 | throws exactly when the comparator would meet a null team, or a null name of students of one team; otherwise sorted by team and name, and a permutation |
| StudentAttributes.SortByNameAndThenByEmail | src/main/java/teammates/common/datatransfer/attributes/StudentAttributes.java:221-224 | throws exactly when the comparator would meet a null name, or a null email of students of one name; otherwise sorted by name and email, and a permutation |
| StudentAttributes.SectionsAreContiguous | src/main/java/teammates/common/datatransfer/attributes/StudentAttributes.java:210-214 | in a list sorted by section, the students of one section are contiguous |
| StudentAttributes.TeamsAreContiguous | src/main/java/teammates/common/datatransfer/attributes/StudentAttributes.java:216-219 | in a list sorted by team, the students of one team are contiguous |
| StudentAttributes.StudentAttributes.constructor | src/main/java/teammates/common/datatransfer/attributes/StudentAttributes.java:41-50 | the new object holds the defaults |
| StudentAttributes.StudentAttributes.GetCopy | src/main/java/teammates/common/datatransfer/attributes/StudentAttributes.java:82-98 | a new object with the same field values |
| StudentAttributes.StudentAttributes.Update | src/main/java/teammates/common/datatransfer/attributes/StudentAttributes.java:329-340 | the fields become the update of the old fields |
| StudentAttributes.StudentAttributes.UpdateWithExistingRecord | src/main/java/teammates/common/datatransfer/attributes/StudentAttributes.java:226-250 | the fields become the old fields filled from the existing record |
| StudentAttributes.StudentAttributes.SanitizeForSaving | src/main/java/teammates/common/datatransfer/attributes/StudentAttributes.java:276-280 | the fields become the sanitized old fields |
| StudentAttributes.StudentAttributes.SetTimestamps | src/main/java/teammates/common/datatransfer/attributes/StudentAttributes.java:297-303 | only the timestamps change |
| StudentAttributes.ValueOf | src/main/java/teammates/common/datatransfer/attributes/StudentAttributes.java:52-73 | a new object holding the entity's attributes |
| StudentAttributes.Build | src/main/java/teammates/common/datatransfer/attributes/StudentAttributes.java:78-80 | a new object with the defaults and the builder's options applied (also lines 356-368) |
| StudentsLogic.InEnrollList | src/main/java/teammates/logic/core/StudentsLogic.java:389-397 | the search throws only with a null email |
| StudentsLogic.InEnrollListMeaning | src/main/java/teammates/logic/core/StudentsLogic.java:389-397 | when every listed student has an email, the search succeeds and is true exactly when some listed student's email equals the student's ignoring case (equalsIgnoreCase) |
| StudentsLogic.IsInEnrollList | src/main/java/teammates/logic/core/StudentsLogic.java:389-397 | the loop computes the search |
| StudentsLogic.MergedFailureStays | src/main/java/teammates/logic/core/StudentsLogic.java:258-262 | once merging throws, the rest of the course's students do not change the outcome |
| StudentsLogic.GetMergedList | src/main/java/teammates/logic/core/StudentsLogic.java:249-264 | the loops compute the merged list |
| StudentsLogic.MergedShape | src/main/java/teammates/logic/core/StudentsLogic.java:249-264 | the merged list begins with the enrolled list, then adds course students, none having the email of an earlier student |
| StudentsLogic.MergedCovers | src/main/java/teammates/logic/core/StudentsLogic.java:249-264 | every student of the course has a student with the same email in the merged list |
| StudentsLogic.SectionCountAppend | src/main/java/teammates/logic/core/StudentsLogic.java:275-296 | the count of a section's students adds over concatenation |
| StudentsLogic.RemoveAt | src/main/java/teammates/logic/core/StudentsLogic.java:275-296 | removing one student lowers the count of its section by one |
| StudentsLogic.SectionCountPermutation | src/main/java/teammates/logic/core/StudentsLogic.java:277 | sorting does not change any section's count |
| StudentsLogic.SectionCountAbsent | src/main/java/teammates/logic/core/StudentsLogic.java:275-296 | a section no student is in has count 0 |
| StudentsLogic.OversizedSections | src/main/java/teammates/logic/core/StudentsLogic.java:279-296 | the sections listed are distinct and are exactly those with more students than the limit |
| StudentsLogic.CountStep | src/main/java/teammates/logic/core/StudentsLogic.java:281-291 | the count over one more student grows only for that student's section |
| StudentsLogic.QuotaSameSection | src/main/java/teammates/logic/core/StudentsLogic.java:284-285 | a student in the same section as the previous one extends the run, and the last run is reported if over the limit (also lines 293-295) |
| StudentsLogic.QuotaNewSection | src/main/java/teammates/logic/core/StudentsLogic.java:286-291 | a student in a new section closes the previous run, reporting it if over the limit |
| StudentsLogic.NewSectionIsFirst | src/main/java/teammates/logic/core/StudentsLogic.java:277 | in the sorted list, a change of section meets that section for the first time (also lines 286-291) |
| StudentsLogic.ConcatEmpty | src/main/java/teammates/logic/core/StudentsLogic.java:298-303 | the message is empty exactly when nothing is reported |
| StudentsLogic.AppendAll | src/main/java/teammates/logic/core/StudentsLogic.java:298-303 | the loop appends one formatted message per item |
| StudentsLogic.SortedKeepsSections | src/main/java/teammates/logic/core/StudentsLogic.java:277 | sorting by section keeps every section present |
| StudentsLogic.SectionSortSeesSections | src/main/java/teammates/logic/core/StudentsLogic.java:277 | a section sort of two or more students that does not throw had a section for every student |
| StudentsLogic.TeamSortCanThrowAfterSectionSort | src/main/java/teammates/logic/core/StudentsLogic.java:222 | the section check can succeed and the team check after it throw: a student with a null team alone in its section |
| StudentsLogic.SectionInvalidityInfo | src/main/java/teammates/logic/core/StudentsLogic.java:275-304 | throws exactly when the section sort throws; otherwise the message names exactly the sections over the limit, each once, and is empty exactly when every section is within it |
| StudentsLogic.TeamsOverSections | src/main/java/teammates/logic/core/StudentsLogic.java:310-319 | the teams listed are distinct and are exactly those split between neighbours of different sections |
| StudentsLogic.SplitBeforeStep | src/main/java/teammates/logic/core/StudentsLogic.java:311-319 | each step adds the team split at that position |
| StudentsLogic.SplitBetween | src/main/java/teammates/logic/core/StudentsLogic.java:308-319 | two students of one team in different sections, in the team-sorted list, have a split between them |
| StudentsLogic.SplitIffSpans | src/main/java/teammates/logic/core/StudentsLogic.java:308-319 | in the team-sorted list a team is reported exactly when its students are in more than one section |
| StudentsLogic.SpansGivesSplit | src/main/java/teammates/logic/core/StudentsLogic.java:308-319 | a team whose students span sections is reported |
| StudentsLogic.SpanningIndices | src/main/java/teammates/logic/core/StudentsLogic.java:308-319 | a team spanning sections has two students in different sections |
| StudentsLogic.SortedKeepsTeams | src/main/java/teammates/logic/core/StudentsLogic.java:308 | sorting by team keeps the students and their teams |
| StudentsLogic.TeamInvalidityInfo | src/main/java/teammates/logic/core/StudentsLogic.java:306-332 | throws when the team sort throws, and succeeds when it does not and every student has a section; a success names exactly the teams whose students span sections, each once, and is empty exactly when no team does |
| StudentsLogic.ValidateSectionsAndTeams | src/main/java/teammates/logic/core/StudentsLogic.java:214-228 | fewer than two merged students pass; otherwise it throws exactly when the section sort or the team sort throws, and when neither does it passes exactly when every section is within the limit and no team spans sections |
| StudentsLogic.ValidateTeams | src/main/java/teammates/logic/core/StudentsLogic.java:233-247 | fewer than two merged students pass; otherwise, when the team sort does not throw and every student has a section, the validation passes exactly when no team spans sections |
| StudentsLogic.SectionForTeam | src/main/java/teammates/logic/core/StudentsLogic.java:266-273 | an empty team is in the default section; otherwise a member's section |
| StudentsLogic.SectionOfUnsplitTeam | src/main/java/teammates/logic/core/StudentsLogic.java:266-273 | for a team that does not span sections, that section is every member's |
| StudentsLogic.UpdateCascades | src/main/java/teammates/logic/core/StudentsLogic.java:168-194 | a failed store update fails; a missing original throws; otherwise the email, team and section cascades run exactly when those values changed |
| StudentsLogic.UpdateCascadesFollowOptions | src/main/java/teammates/logic/core/StudentsLogic.java:168-194 | no cascade runs exactly when the options keep email, team and section |
| StudentsLogic.ResetGoogleIdCascadesNothing | src/main/java/teammates/logic/core/StudentsLogic.java:199-209 | resetting the Google ID runs no cascade |
| StudentsLogic.DeleteCascades | src/main/java/teammates/logic/core/StudentsLogic.java:349-361 | a missing student deletes nothing; otherwise the responses involving the student go first and the record last, and the team's responses are deleted exactly when the student was its only member |
| TimezoneService.BadZonesExactly | src/web/services/timezone.service.ts:23-26 | the bad zones are exactly EST, GMT+0, GMT-0, HST, MST and ROC (also lines 57-59) |
| TimezoneService.TimezoneService.constructor | src/web/services/timezone.service.ts:28-38 | the service holds the zone names, the data version and the offsets at construction |
| TimezoneService.TimezoneService.GetTzOffsets | src/web/services/timezone.service.ts:28-38 | the offsets map has exactly the zones that are not bad, each with the negated UTC offset (also lines 50-52) |
| TimezoneService.NoBadZoneOffered | src/web/services/timezone.service.ts:32-37 | no bad zone is offered |
| TimezoneService.ZeroFillNat | src/web/services/timezone.service.ts:10 | zero-filling gives digits only, at least the width |
| TimezoneService.ParseLocalDateTime | src/web/services/timezone.service.ts:10 | only a 16-character text parses |
| TimezoneService.ZeroFillValue | src/web/services/timezone.service.ts:10 | the filled digits read back as the number |
| TimezoneService.ZeroFillLength | src/web/services/timezone.service.ts:10 | a number below ten to the width fills exactly the width |
| TimezoneService.ZeroFillOfDigits | src/web/services/timezone.service.ts:10 | filling a digit string's value to its length gives the string back |
| TimezoneService.ZeroFillField | src/web/services/timezone.service.ts:10 | a field in range fills exactly its width and reads back as itself |
| TimezoneService.Layout | src/web/services/timezone.service.ts:10 | the five fields sit at fixed places between the separators |
| TimezoneService.ParseFormat | src/web/services/timezone.service.ts:10 | a date-time in range, formatted as YYYY-MM-DD HH:mm, parses back to itself |
| TimezoneService.FormattedFields | src/web/services/timezone.service.ts:10 | each field of the formatted text is the date-time's field, the month one-based |
| TimezoneService.FormattedPieces | src/web/services/timezone.service.ts:10 | the formatted text is the zero-filled fields with their separators |
| TimezoneService.DigitsLayout | src/web/services/timezone.service.ts:10 | the pieces of a laid-out text read back as the fields |
| TimezoneService.ParseOfFields | src/web/services/timezone.service.ts:10 | a text with digits and separators in place parses to its fields, the month zero-based |
| TimezoneService.FormatParse | src/web/services/timezone.service.ts:10 | a text that parses formats back to itself |
| TimezoneService.StatusOf | src/web/services/timezone.service.ts:85-103 | a status read from a text has that text as its value |
| TimezoneService.StatusValues | src/web/services/timezone.service.ts:85-103 | each status reads back from its value, and exactly UNAMBIGUOUS, GAP and OVERLAP are statuses |
| TimezoneService.GetResolveLocalDateTime | src/web/services/timezone.service.ts:64-67 | the request goes to /localdatetime with exactly the local date-time and the time zone as parameters |
| PerQuestionViewResponses.FilteredMembers | src/web/app/components/question-responses/per-question-view-responses/per-question-view-responses.component.ts:45-75 | a response is shown exactly when it is one of the responses and no section is chosen or it belongs to the section as the section type says |
| PerQuestionViewResponses.KeepsAll | src/web/app/components/question-responses/per-question-view-responses/per-question-view-responses.component.ts:49 | with no section chosen, or a section type outside the enum, every response is shown in order (also lines 66) |
| PerQuestionViewResponses.FilteredMonotone | src/web/app/components/question-responses/per-question-view-responses/per-question-view-responses.component.ts:45-75 | a filter that keeps at least as much shows a sequence containing the other's, in order |
| PerQuestionViewResponses.FilteredIsSubsequence | src/web/app/components/question-responses/per-question-view-responses/per-question-view-responses.component.ts:45-75 | the shown responses keep their order |
| PerQuestionViewResponses.SectionTypesNested | src/web/app/components/question-responses/per-question-view-responses/per-question-view-responses.component.ts:51-67 | BOTH shows part of what GIVER and EVALUEE show, and each of those part of what EITHER shows |
| PerQuestionViewResponses.PerQuestionViewResponses.constructor | src/web/app/components/question-responses/per-question-view-responses/per-question-view-responses.component.ts:21-23 | no responses, no section, section type EITHER, and nothing shown (also lines 33) |
| PerQuestionViewResponses.PerQuestionViewResponses.FilterResponses | src/web/app/components/question-responses/per-question-view-responses/per-question-view-responses.component.ts:45-75 | the shown list becomes the filtered responses |
| SubmissionStatusName.Transform | src/web/app/components/session-edit-form/submission-status-name.pipe.ts:15-28 | "Awaiting" exactly for not visible or visible but not open, "Open" exactly for open or grace period, "Closed" exactly for closed, and "Unknown" exactly for any other value |

## Left out

- Datastore entities, Objectify queries and transactions: each store is a `map` from key to record. The entity classes are not part of this model. `getAllOngoingSessions` is modelled as the union of its two range queries.
- InstructorsDb, StudentsDb, FeedbackResponsesLogic, FeedbackResponseCommentsLogic and the other logic classes the cascades call are not part of this model. Their calls appear as the cascade steps the logic methods return, in order.
- InstructorsLogic.UpdateByEmailInStore: InstructorsDb is not part of this model, so the store update follows the behaviour its tests pin down (InstructorsDbTest.java:345-406), not its code.
- FeedbackSessionsDb.UpdateFeedbackSession: writes every field the source writes and never `deletedTime` or the respondent sets, as in the source. The caller that handles these is not part of this model.
- Aliasing between Java objects: an attributes object is a class whose methods rewrite its own fields. Records held in lists, maps and stores are values, so sharing one object between two holders is not modelled.
- HashMap and HashSet iteration order: a map or set the source iterates is modelled in input order. Where the source's order is unspecified, the contract says only that some order is used.
- Helper code from outside the model becomes function-typed parameters. This covers FieldValidator, SanitizationHelper, StringHelper.splitName, the JSON form of InstructorPrivileges, ZoneId.of, isSampleCourse, moment-timezone, the JSON parser, each question type's isEmpty check and its default response details. JSON equality is taken to be equality of the parsed values.
- InstructorAttributes privileges are an opaque value with co-owner and role-derived defaults. The privilege checks read them through a parameter.
- The `Const` strings (messages, default section, user markers): Const.java is not part of this model, so their values are stand-ins, pairwise distinct. The sentinel instants and the numeric limits are the source's own.
- The `%s` placeholders in error messages: a message is the constant plus its arguments as a sequence of strings, not the formatted text.
- The FeedbackSessionAttributes and FeedbackSessionInfo time predicates: their contracts require the times they read to be present. A null time, which throws in the source, is not modelled.
- Times are whole milliseconds. Time-zone offset arithmetic inside `ZoneId`, moment normalisation and seconds are not modelled.
- AccountController.GenerateDemoCourseId: the loop proposes ids with the corrected generator (Findings). A proposal sequence that revisits an id is reported as `Loops`; the Java loop would never end there.
- SessionResultsData: the viewer's email and team are non-null strings, so a null viewer is not modelled. The instructor view of `buildResponses` (SessionResultsData.java:157-198) is not modelled. Neither are the team and recipient fields of `buildMissingResponse`, including line 252, which reads `isGiverVisible` for the recipient.
- The front end's asynchronous work is not modelled: HTTP calls, subscriptions, status messages, modals and the text of warnings. A request's outcome is a parameter of the method that handles it.
- The session edit form's model fields are held as one record in the component, which the form's methods replace whole.
- The edit form's delete, copy and copy-to-other-courses buttons only emit an event, and are not modelled.
- The submission page:
  - the closing-soon modal and confirmation requests are not modelled;
  - `isSavingResponses` being reset in `finalize` is not modelled;
  - question models are values indexed by their position;
  - a missing `courseid` or `fsname` query parameter is not modelled;
  - response details are opaque values.
- ContributionQuestionStatisticsCalculation: the value CONTRIBUTION_POINT_NOT_SUBMITTED is a parameter. The loops build their tables in locals, and the method assigns the component's fields once at the end.
- TimezoneService: key order from `Object.keys` is not modelled. BadZonesExactly requires the zone not to be a property of `Object.prototype`.
- Java's `List.sort` is modelled by its outcome: it throws exactly when a comparison it must make would throw, and otherwise gives the stably sorted permutation. The order in which TimSort makes its comparisons is not modelled.
- FeedbackQuestionAttributes.Pruned: uses the corrected per-list guard of Findings, so it does not throw where Java throws (showResponsesTo null, showRecipientNameTo present) and it prunes showResponsesTo where Java does not (showRecipientNameTo null). PrunedAsWritten models the code as written, and PrunedAsWrittenAgrees proves the two agree when both lists are present or both null.
- FeedbackQuestionAttributes.Updated: built on Pruned, so it has the same two departures from FeedbackQuestionAttributes.java:437-449. It is the result of an update that does not throw; the NullPointerException for present details on a question without a type (lines 587-588 and 490-491) is stated by FeedbackQuestionAttributes.FeedbackQuestionAttributes.Update.
- FeedbackQuestionAttributes.FeedbackQuestionAttributes.RemoveIrrelevantVisibilityOptions: specified by Pruned, with the same two departures.
- FeedbackQuestionAttributes.FeedbackQuestionAttributes.Update: specified by Updated, with the same two departures.
- FeedbackQuestionAttributes.Build: applies Update, with the same two departures. Its question type is always set, so that update never throws.
- FeedbackSessionResultsBundle.FeedbackSessionResultsBundle.constructor: receives the responses before hiding as an argument and does not compute them. The conversion of a TEAMS giver's email to the team name (FeedbackSessionResultsBundle.java:304-315) is not modelled. Neither is hideResponsesGiverRecipient (lines 386-425). The missing responses and the roster tables are filled by the separate methods BuildMissingResponses and BuildRosterTables, which the constructor does not call.
- JavaStrings.ToLower, JavaStrings.EqualsIgnoreCase: fold only the letters A to Z. Java's `toLowerCase` and `equalsIgnoreCase` also fold non-ASCII letters, and the model does not.
- InstructorAttributes.NameKey: lower-cases with the ASCII-only JavaStrings.ToLower, so two names that differ only in a non-ASCII letter's case get different keys.
- InstructorAttributes.ByNameIgnoresCase: names differing in the case of a non-ASCII letter compare unequal in the model, and equal in Java.
- InstructorAttributes.SortByName: sorts by the ASCII-only key, so it can order non-ASCII names differently from Java.
- StudentsLogic.InEnrollList: compares emails with the ASCII-only EqualsIgnoreCase.
- CoursesDb.CoursesDb.GetCourse: reads a stored course with CourseAttributes.AttributesOf (CourseAttributes.valueOf). CoursesDb.java:144-158 calls a three-argument builder that the CourseAttributes of this model does not have. Both set the id, name, zone (falling back to the default zone), creation and deletion times.
- CoursesDb.CoursesDb.GetCourses: reads each course in the same way as GetCourse.
- FeedbackSessionAttributes.AttributesOf: keeps the stored time-zone id as text. The exception `ZoneId.of` throws for a null or unknown id (FeedbackSessionAttributes.java:102) is not modelled.
- FeedbackResponseCommentAttributes.SortByCreationTime: the contract does not state that comments with equal creation times keep their list order.
- ProfilesDb: the StudentProfile entity holds the picture as a BlobKey, and the attributes hold it as a string. The entity class is not part of this model, so the store keeps the key string, and the conversion between the two is not modelled.
- Strings are sequences of Unicode code points, while Java and TypeScript strings are sequences of UTF-16 code units. A character outside the Basic Multilingual Plane counts once here and twice in the source. This affects the following:
  - JavaStrings.CompareTo: orders by code point. `String.compareTo` orders by UTF-16 unit, so U+FFFF comes after U+10000 in Java and before it here.
  - AccountController.DemoCourseIdRoot, AccountController.GenerateNextDemoCourseId, AccountController.ShortenedId and AccountController.GenerateDemoCourseId: the length checks against the course-id maximum and the truncation count code points.
  - The sorts built on JavaStrings.CompareTo (StudentAttributes, InstructorAttributes, CourseAttributes, FeedbackResponseAttributes, FeedbackSessionAttributes, FeedbackSessionResultsBundle): they order by code point.
- SessionEditForm.SessionEditForm.SubmitFormHandler, SessionEditForm.SessionEditForm.GetTimestamp: they follow the corrected getTimestamp of Findings, which formats the local moment. So a gap or an overlap gives the resolved timestamp and a warning. As written, the source's `tap` callback throws a TypeError there, and the submitted observable errors. SessionEditForm.SessionEditForm.GetTimestampAsWritten and SessionEditForm.SessionEditForm.SubmitFormHandlerAsWritten model the code as written.
- The web pages' templates and styles, the email and task-queue services, search and GAE-specific code are outside the modelled core.

## Findings

| source | as written | input that shows it | evidently intended | confidence | as-written member | corrected member |
|---|---|---|---|---|---|---|
| src/main/java/teammates/common/datatransfer/attributes/FeedbackQuestionAttributes.java:437-449 | `showResponsesTo.removeAll(...)` is guarded by `showRecipientNameTo != null`, so it runs only when the other list is present | a question from STUDENTS to NONE whose showResponsesTo is [RECEIVER] and whose showRecipientNameTo is null: RECEIVER stays in showResponsesTo | each list is pruned when that list itself is present | not executed | FeedbackQuestionAttributes.RemoveVisibilitiesAsWrittenKeepsReceiver | FeedbackQuestionAttributes.RemoveVisibilitiesProperties |
| src/main/java/teammates/ui/webapi/output/SessionResultsData.java:229-240 | `giverEmail` is set to null before it is used as the key of `getTeamToMembersTable().get(giverEmail)` | a missing response whose giver is a team of the course, in a course where every student has a team: the lookup with the null key gives null and the call to `iterator()` throws | look up the team's members by the giver's identifier before hiding it | not executed | SessionResultsData.MissingGiverIdentityAsWrittenFailsForTeams | SessionResultsData.MissingGiverIdentity |
| src/main/java/teammates/logic/core/InstructorsLogic.java:369-378 | `resetInstructorGoogleId` builds the update options with `originalEmail` as the course id | a registered instructor ann@x.org of course CS101: the update looks for that email in course "ann@x.org" and fails with EntityDoesNotExist, so the Google id is kept | build the options with `courseId` | not executed | InstructorsLogic.ResetAsWrittenCounterexample | InstructorsLogic.ResetUnregistersInstructor |
| src/main/java/teammates/ui/newcontroller/api/AccountController.java:193-209 | when the proposed id is too long, `truncateHead` drops the first characters of the whole id, the username included | the id "012345678901234567890123456789.gma-demo9" with maximum length 40 gives "12345678901234567890123456789.gma-demo10", not the "01234567890123456789012345678.gma-demo10" the comment at line 190 gives | shorten the username part and keep the demo suffix, as lines 142-143 and 190 describe | not executed | AccountController.DocumentedExampleAsWritten | AccountController.DocumentedExampleIntended |
| src/web/app/components/session-edit-form/session-edit-form.component.ts:270-282 | the GAP and OVERLAP warnings call `moment.format(...)` on the default export of 'moment-timezone' (line 3), which has no `format` function, instead of `inst.format(...)` | a submission whose opening time falls in a DST gap: the `tap` callback throws a TypeError, so the emitted observable errors and no model is submitted | format the local moment `inst` built at line 254, show the warning, and submit the resolved timestamp | not executed; inferred from moment's API, whose source is not part of this model | SessionEditForm.GapTimestampCounterexample | SessionEditForm.SessionEditForm.SubmitFormHandler |
