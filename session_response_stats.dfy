// GetSessionResponseStatsAction: the submitted / total counts of a feedback
// session. The expected respondents are the course's students when some
// question is answered by students, the session's creator when some question is
// answered by the creator alone, and the course's instructors when some question
// is answered by instructors; the submitted count is how many of them gave a
// response.

module SessionResponseStats {
  import opened Common
  import opened Const
  import FeedbackQuestionAttributes

  type Question = FeedbackQuestionAttributes.Question

  /** FeedbackSessionStatsData. */
  datatype Stats = Stats(submittedTotal: nat, expectedTotal: nat)

  /** questions.stream().anyMatch(q -> q.getGiverType().equals(t)): the questions are tried in
      order until one matches; a question without a giver type met first throws. */
  function AnyGiver(questions: seq<Question>, t: ParticipantType): (r: Outcome<bool>)
    ensures r.Fail? ==> r.failure == NullPointer
    ensures r == Ok(true) ==> exists i | 0 <= i < |questions| :: questions[i].giverType == Some(t)
    ensures r == Ok(false) ==> forall i | 0 <= i < |questions| :: questions[i].giverType.Some?
                                                                   && questions[i].giverType != Some(t)
    ensures (forall i | 0 <= i < |questions| :: questions[i].giverType.Some?) ==> r.Ok?
  {
    if |questions| == 0 then Ok(false)
    else if questions[0].giverType.None? then Fail(NullPointer)
    else if questions[0].giverType == Some(t) then Ok(true)
    else
      var rest := AnyGiver(questions[1..], t);
      assert forall i | 1 <= i < |questions| :: questions[i] == questions[1..][i - 1];
      rest
  }

  /** The expected respondents, given which giver types occur. */
  function Expected(studentsAnswer: bool, creatorAnswers: bool, instructorsAnswer: bool,
                    studentEmails: seq<string>, creatorEmail: string, instructorEmails: seq<string>): set<string>
  {
    (if studentsAnswer then set e | e in studentEmails else {})
    + (if creatorAnswers then {creatorEmail} else {})
    + (if instructorsAnswer then set e | e in instructorEmails else {})
  }

  /** What execute outputs for the session's questions, the course's student and instructor
      emails, the creator's email and the emails of those who gave a response. */
  function StatsFor(questions: seq<Question>, studentEmails: seq<string>, creatorEmail: string,
                    instructorEmails: seq<string>, givers: set<string>): Outcome<Stats>
  {
    var students := AnyGiver(questions, STUDENTS);
    if students.Fail? then Fail(students.failure)
    else
      var creator := AnyGiver(questions, SELF);
      if creator.Fail? then Fail(creator.failure)
      else
        var instructors := AnyGiver(questions, INSTRUCTORS);
        if instructors.Fail? then Fail(instructors.failure)
        else
          var expected := Expected(students.value, creator.value, instructors.value,
                                   studentEmails, creatorEmail, instructorEmails);
          Ok(Stats(|expected * givers|, |expected|))
  }

  /** Who is expected: a student's email exactly when some question is answered by students,
      the creator's exactly when some question is answered by the creator, an instructor's
      exactly when some question is answered by instructors. */
  lemma ExpectedMembers(questions: seq<Question>, studentEmails: seq<string>, creatorEmail: string,
                        instructorEmails: seq<string>, e: string)
    requires forall i | 0 <= i < |questions| :: questions[i].giverType.Some?
    ensures var expected := Expected(AnyGiver(questions, STUDENTS).value, AnyGiver(questions, SELF).value,
                                     AnyGiver(questions, INSTRUCTORS).value, studentEmails, creatorEmail, instructorEmails);
            e in expected <==>
              (e in studentEmails && exists i | 0 <= i < |questions| :: questions[i].giverType == Some(STUDENTS))
              || (e == creatorEmail && exists i | 0 <= i < |questions| :: questions[i].giverType == Some(SELF))
              || (e in instructorEmails && exists i | 0 <= i < |questions| :: questions[i].giverType == Some(INSTRUCTORS))
  {
  }

  /** The submitted count never exceeds the expected count, and reaches it exactly when every
      expected respondent gave a response. */
  lemma SubmittedAtMostExpected(questions: seq<Question>, studentEmails: seq<string>, creatorEmail: string,
                                instructorEmails: seq<string>, givers: set<string>)
    requires StatsFor(questions, studentEmails, creatorEmail, instructorEmails, givers).Ok?
    ensures var s := StatsFor(questions, studentEmails, creatorEmail, instructorEmails, givers).value;
            s.submittedTotal <= s.expectedTotal
    ensures var s := StatsFor(questions, studentEmails, creatorEmail, instructorEmails, givers).value;
            s.submittedTotal == s.expectedTotal <==>
              Expected(AnyGiver(questions, STUDENTS).value, AnyGiver(questions, SELF).value,
                       AnyGiver(questions, INSTRUCTORS).value, studentEmails, creatorEmail, instructorEmails) <= givers
  {
    var expected := Expected(AnyGiver(questions, STUDENTS).value, AnyGiver(questions, SELF).value,
                             AnyGiver(questions, INSTRUCTORS).value, studentEmails, creatorEmail, instructorEmails);
    assert StatsFor(questions, studentEmails, creatorEmail, instructorEmails, givers).value
           == Stats(|expected * givers|, |expected|);
    IntersectionCard(expected, givers);
  }

  /** |a ∩ b| <= |a|, with equality exactly when a is a subset of b. */
  lemma IntersectionCard(a: set<string>, b: set<string>)
    ensures |a * b| <= |a|
    ensures |a * b| == |a| <==> a <= b
  {
    assert a == (a * b) + (a - b);
    assert |a| == |a * b| + |a - b|;
    if |a * b| == |a| {
      assert |a - b| == 0;
      assert a - b == {};
    }
  }

  /** allEmails.add for each email of a list. */
  method AddAll(allEmails: set<string>, emails: seq<string>) returns (r: set<string>)
    ensures r == allEmails + set e | e in emails
  {
    r := allEmails;
    for i := 0 to |emails|
      invariant r == allEmails + set e | e in emails[..i]
    {
      assert emails[..i + 1] == emails[..i] + [emails[i]];
      r := r + {emails[i]};
    }
    assert emails[..|emails|] == emails;
  }

  /** execute: the expected set built by adding the students', the creator's and the
      instructors' emails, then its intersection with the givers and its size. */
  method Execute(questions: seq<Question>, studentEmails: seq<string>, creatorEmail: string,
                 instructorEmails: seq<string>, givers: set<string>) returns (r: Outcome<Stats>)
    ensures r == StatsFor(questions, studentEmails, creatorEmail, instructorEmails, givers)
  {
    var allEmails: set<string> := {};
    var students := AnyGiver(questions, STUDENTS);
    if students.Fail? {
      return Fail(students.failure);
    }
    if students.value {
      allEmails := AddAll(allEmails, studentEmails);
    }
    ghost var fromStudents := if students.value then set e | e in studentEmails else {};
    assert allEmails == fromStudents;
    var creator := AnyGiver(questions, SELF);
    if creator.Fail? {
      return Fail(creator.failure);
    }
    if creator.value {
      allEmails := allEmails + {creatorEmail};
    }
    ghost var fromCreator := fromStudents + if creator.value then {creatorEmail} else {};
    assert allEmails == fromCreator;
    var instructors := AnyGiver(questions, INSTRUCTORS);
    if instructors.Fail? {
      return Fail(instructors.failure);
    }
    if instructors.value {
      allEmails := AddAll(allEmails, instructorEmails);
    }
    assert allEmails == Expected(students.value, creator.value, instructors.value,
                                 studentEmails, creatorEmail, instructorEmails);
    r := Ok(Stats(|allEmails * givers|, |allEmails|));
  }
}
