// per-question-view-responses.component.ts: the responses to one question shown
// in the instructor's results page. When a section is chosen, only the
// responses whose giver and/or recipient belong to it are kept, as the
// section type says; the kept responses stay in their original order.

module PerQuestionViewResponses {
  import opened Common

  /** InstructorSessionResultSectionType. */
  datatype SectionType = EITHER | GIVER | EVALUEE | BOTH

  /** The parts of a response the filter looks at; a section the response does not carry is None. */
  datatype Response = Response(responseId: string, giverSection: Option<string>, recipientSection: Option<string>)

  /** shouldDisplayBasedOnSection, for a chosen section; None stands for a section type outside
      the enum, which the switch's default leaves displayed. */
  predicate ShouldDisplay(response: Response, section: string, sectionType: Option<SectionType>)
  {
    match sectionType
    case Some(EITHER) => response.giverSection == Some(section) || response.recipientSection == Some(section)
    case Some(GIVER) => response.giverSection == Some(section)
    case Some(EVALUEE) => response.recipientSection == Some(section)
    case Some(BOTH) => response.giverSection == Some(section) && response.recipientSection == Some(section)
    case None => true
  }

  /** Whether a response is pushed: always when no section is chosen (the empty text is falsy),
      otherwise as the section type says. */
  predicate Kept(response: Response, section: string, sectionType: Option<SectionType>)
  {
    section == "" || ShouldDisplay(response, section, sectionType)
  }

  /** The responses filterResponses keeps, in their order. */
  function Filtered(responses: seq<Response>, section: string, sectionType: Option<SectionType>): seq<Response>
  {
    if |responses| == 0 then []
    else
      var last := responses[|responses| - 1];
      Filtered(responses[..|responses| - 1], section, sectionType)
      + (if Kept(last, section, sectionType) then [last] else [])
  }

  /** `a` is `b` with some elements left out, the rest in their order. */
  predicate IsSubsequence(a: seq<Response>, b: seq<Response>)
  {
    |a| == 0 ||
    (|b| > 0 && ((a[|a| - 1] == b[|b| - 1] && IsSubsequence(a[..|a| - 1], b[..|b| - 1]))
                 || IsSubsequence(a, b[..|b| - 1])))
  }

  /** A response is shown exactly when it is among the responses and passes the filter. */
  lemma {:induction false} FilteredMembers(responses: seq<Response>, section: string,
                                           sectionType: Option<SectionType>, r: Response)
    ensures r in Filtered(responses, section, sectionType) <==> r in responses && Kept(r, section, sectionType)
  {
    if |responses| > 0 {
      var init := responses[..|responses| - 1];
      FilteredMembers(init, section, sectionType, r);
      assert responses == init + [responses[|responses| - 1]];
    }
  }

  /** With no section chosen, or a section type outside the enum, every response is shown, in order. */
  lemma {:induction false} KeepsAll(responses: seq<Response>, section: string, sectionType: Option<SectionType>)
    requires section == "" || sectionType.None?
    ensures Filtered(responses, section, sectionType) == responses
  {
    if |responses| > 0 {
      KeepsAll(responses[..|responses| - 1], section, sectionType);
      assert responses == responses[..|responses| - 1] + [responses[|responses| - 1]];
    }
  }

  /** A filter that keeps at least what another keeps, on these responses, shows a sequence
      the other's is a subsequence of. */
  lemma {:induction false} FilteredMonotone(responses: seq<Response>, section: string,
                                            narrow: Option<SectionType>, wide: Option<SectionType>)
    requires forall i | 0 <= i < |responses| ::
               Kept(responses[i], section, narrow) ==> Kept(responses[i], section, wide)
    ensures IsSubsequence(Filtered(responses, section, narrow), Filtered(responses, section, wide))
  {
    if |responses| > 0 {
      var init := responses[..|responses| - 1];
      var last := responses[|responses| - 1];
      assert forall i | 0 <= i < |init| :: init[i] == responses[i];
      FilteredMonotone(init, section, narrow, wide);
      var a := Filtered(init, section, narrow);
      var b := Filtered(init, section, wide);
      if Kept(last, section, narrow) {
        assert (a + [last])[..|a|] == a && (b + [last])[..|b|] == b;
      } else if Kept(last, section, wide) {
        assert Filtered(responses, section, narrow) == a;
        assert Filtered(responses, section, wide) == b + [last];
        assert (b + [last])[..|b|] == b;
        assert IsSubsequence(a, b + [last]);
      } else {
        assert Filtered(responses, section, narrow) == a;
        assert Filtered(responses, section, wide) == b;
      }
    }
  }

  /** What is shown is an order-preserving subsequence of the responses. */
  lemma FilteredIsSubsequence(responses: seq<Response>, section: string, sectionType: Option<SectionType>)
    ensures IsSubsequence(Filtered(responses, section, sectionType), responses)
  {
    FilteredMonotone(responses, section, sectionType, None);
    KeepsAll(responses, section, None);
  }

  /** BOTH shows a subsequence of what GIVER and EVALUEE show, and each of those a subsequence
      of what EITHER shows. */
  lemma SectionTypesNested(responses: seq<Response>, section: string)
    ensures IsSubsequence(Filtered(responses, section, Some(BOTH)), Filtered(responses, section, Some(GIVER)))
    ensures IsSubsequence(Filtered(responses, section, Some(BOTH)), Filtered(responses, section, Some(EVALUEE)))
    ensures IsSubsequence(Filtered(responses, section, Some(GIVER)), Filtered(responses, section, Some(EITHER)))
    ensures IsSubsequence(Filtered(responses, section, Some(EVALUEE)), Filtered(responses, section, Some(EITHER)))
  {
    FilteredMonotone(responses, section, Some(BOTH), Some(GIVER));
    FilteredMonotone(responses, section, Some(BOTH), Some(EVALUEE));
    FilteredMonotone(responses, section, Some(GIVER), Some(EITHER));
    FilteredMonotone(responses, section, Some(EVALUEE), Some(EITHER));
  }

  /** The component's inputs and the list it shows. */
  class PerQuestionViewResponses {
    var responses: seq<Response>
    var section: string
    var sectionType: Option<SectionType>
    var responsesToShow: seq<Response>

    /** The inputs' defaults: no responses, no section, EITHER. */
    constructor ()
      ensures responses == [] && section == "" && sectionType == Some(EITHER) && responsesToShow == []
    {
      responses, section, sectionType, responsesToShow := [], "", Some(EITHER), [];
    }

    /** filterResponses: each response in turn is pushed unless a section is chosen and the
        response does not belong to it as the section type says; the list is then shown. */
    method FilterResponses()
      modifies this`responsesToShow
      ensures responsesToShow == Filtered(responses, section, sectionType)
    {
      var shown: seq<Response> := [];
      for i := 0 to |responses|
        invariant shown == Filtered(responses[..i], section, sectionType)
      {
        var response := responses[i];
        assert responses[..i + 1][..i] == responses[..i];
        if section != "" {
          var shouldDisplayBasedOnSection := true;
          match sectionType {
            case Some(EITHER) =>
              shouldDisplayBasedOnSection := response.giverSection == Some(section) || response.recipientSection == Some(section);
            case Some(GIVER) =>
              shouldDisplayBasedOnSection := response.giverSection == Some(section);
            case Some(EVALUEE) =>
              shouldDisplayBasedOnSection := response.recipientSection == Some(section);
            case Some(BOTH) =>
              shouldDisplayBasedOnSection := response.giverSection == Some(section) && response.recipientSection == Some(section);
            case None =>
          }
          if !shouldDisplayBasedOnSection {
            continue;
          }
        }
        shown := shown + [response];
      }
      assert responses[..|responses|] == responses;
      responsesToShow := shown;
    }
  }
}
