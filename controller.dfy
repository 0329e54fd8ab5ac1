/**
 * The flow controller: the session fields the journey keeps and the request handlers
 * that advance the step counter, rebuild the flow, reset the session and redirect.
 */
module Controller {
  import opened Wrappers
  import opened Redirect
  import opened Flow
  import opened Answers

  /** The POST routes this controller registers, one per journey page. */
  datatype PostRoute =
    | QuestionList
    | Name | DateOfBirth | Address1 | Phone | Nino | AnythingElse
    | PreviousAddress
    | PreviousReplay

  /** The step counter after one advance: 0 when there was none, otherwise one more. */
  function Advanced(step: Option<nat>): nat {
    if step == None then 0 else step.value + 1
  }

  /**
   * The session data of one user. Each field is absent (None) until something stores it;
   * the welcome page makes all of them absent again.
   */
  class Session {
    var currentOPStep: Option<nat>
    var journeyFlow: Option<seq<string>>   // op-journey-flow
    var details: Option<seq<string>>       // op-details, the sections selected on the question list

    /** A session whose data starts out empty. */
    constructor ()
      ensures currentOPStep == None && journeyFlow == None && details == None
    {
      currentOPStep, journeyFlow, details := None, None, None;
    }

    /** OPJourneyCount: start the step counter at 0, or move it on by one. Nothing else changes. */
    method Count()
      modifies this`currentOPStep
      ensures currentOPStep == Some(Advanced(old(currentOPStep)))
    {
      if currentOPStep == None {
        currentOPStep := Some(0);
      } else {
        currentOPStep := Some(currentOPStep.value + 1);
      }
    }

    /**
     * POST op-question-list: restart the step counter, rebuild op-journey-flow from the
     * selected sections in canonical order, and redirect to its first page, or to
     * check-your-answers when nothing known was selected.
     */
    method SubmitQuestionList() returns (r: Response)
      modifies this`currentOPStep, this`journeyFlow
      ensures currentOPStep == Some(0)
      ensures journeyFlow == Some(RequiredJourneyFlow(details.GetOr([])))
      ensures r == Redirect303(if journeyFlow.value == [] then CheckYourAnswers else journeyFlow.value[0])
    {
      currentOPStep := None;
      var selectedKeys := details.GetOr([]);
      var requiredJourneyFlow := BuildRequiredJourneyFlow(selectedKeys);
      Count();
      journeyFlow := Some(requiredJourneyFlow);
      var nextPage := NextAllowedPage(currentOPStep, journeyFlow);
      r := SafeRedirect(nextPage);
    }

    /**
     * POST of an ordinary journey page (name, date of birth, address, phone, national
     * insurance number, anything else, previous-address replay): advance the step and
     * redirect to the page the flow names for it. The guard never refuses that page.
     */
    method SubmitPage() returns (r: Response)
      modifies this`currentOPStep
      ensures currentOPStep == Some(Advanced(old(currentOPStep)))
      ensures r == Redirect303(NextAllowedPage(currentOPStep, journeyFlow))
      ensures r.location in AllowedPaths
    {
      Count();
      var nextPage := NextAllowedPage(currentOPStep, journeyFlow);
      r := SafeRedirect(nextPage);
    }

    /**
     * POST op-previous-address: when the answer contains one of the three option phrases,
     * advance and redirect as any page does; otherwise leave the session as it is and let
     * the next handler for the route take over. A missing answer reads as the empty text.
     */
    method SubmitPreviousAddress(answer: Option<string>) returns (r: Response)
      modifies this`currentOPStep
      ensures MatchesPreviousAddressOption(answer.GetOr("")) ==>
        currentOPStep == Some(Advanced(old(currentOPStep))) &&
        r == Redirect303(NextAllowedPage(currentOPStep, journeyFlow))
      ensures !MatchesPreviousAddressOption(answer.GetOr("")) ==>
        r == Next && currentOPStep == old(currentOPStep)
    {
      var selectedOption := answer.GetOr("");
      if MatchesPreviousAddressOption(selectedOption) {
        r := SubmitPage();
      } else {
        r := Next;
      }
    }

    /** GET welcome: wipe the session data and render the welcome page. */
    method GetWelcome() returns (r: Response)
      modifies this
      ensures currentOPStep == None && journeyFlow == None && details == None
      ensures r == Render(WelcomePage)
    {
      currentOPStep, journeyFlow, details := None, None, None;
      r := Render(WelcomePage);
    }

    /**
     * The POST routes as registered: every redirect a handler issues is to an allowlisted
     * page, no handler is answered with a 400, and only the previous-address page passes on.
     */
    method HandlePost(route: PostRoute, prevAddress: Option<string>) returns (r: Response)
      modifies this`currentOPStep, this`journeyFlow
      ensures r.Redirect303? || r.Next?
      ensures r.Redirect303? ==> r.location in AllowedPaths
      ensures r.Next? ==> route == PreviousAddress && currentOPStep == old(currentOPStep)
      ensures route == QuestionList ==>
        currentOPStep == Some(0) && journeyFlow == Some(RequiredJourneyFlow(details.GetOr([]))) &&
        r == Redirect303(if journeyFlow.value == [] then CheckYourAnswers else journeyFlow.value[0])
      ensures route != QuestionList ==> journeyFlow == old(journeyFlow)
      ensures route != QuestionList && r.Redirect303? ==>
        currentOPStep == Some(Advanced(old(currentOPStep))) &&
        r == Redirect303(NextAllowedPage(currentOPStep, journeyFlow))
    {
      match route
      case QuestionList => r := SubmitQuestionList();
      case PreviousAddress => r := SubmitPreviousAddress(prevAddress);
      case _ => r := SubmitPage();
    }
  }

  /** The end-to-end journey: two sections selected, then each page submitted in turn. */
  method NameAndNinoJourney() {
    var s := new Session();
    s.details := Some(["National Insurance number", "Name"]);
    var r := s.HandlePost(QuestionList, None);
    NameAndNinoFlow();
    assert s.journeyFlow == Some([OpName, OpNino]) && s.currentOPStep == Some(0);
    assert r == Redirect303(OpName);
    r := s.SubmitPage();
    assert s.currentOPStep == Some(1) && r == Redirect303(OpNino);
    r := s.SubmitPage();
    assert s.currentOPStep == Some(2) && r == Redirect303(CheckYourAnswers);
    r := s.GetWelcome();
    assert s.currentOPStep == None && s.journeyFlow == None && s.details == None;
  }

  /**
   * A whole journey from the question list: with a freshly built flow of n pages, the
   * question list redirects to the first page, the next n - 1 page submissions redirect to
   * the remaining pages in order, and the n-th submission redirects to check-your-answers.
   */
  method WalkJourney(s: Session) returns (responses: seq<Response>)
    modifies s
    ensures var flow := RequiredJourneyFlow(old(s.details).GetOr([]));
      |responses| == |flow| + 1 &&
      responses[0] == Redirect303(if flow == [] then CheckYourAnswers else flow[0]) &&
      forall k :: 1 <= k < |responses| ==>
        responses[k] == Redirect303(if k < |flow| then flow[k] else CheckYourAnswers)
  {
    var first := s.SubmitQuestionList();
    responses := [first];
    var n := |s.journeyFlow.value|;
    ghost var flow := s.journeyFlow.value;
    for k := 0 to n
      invariant s.currentOPStep == Some(k) && s.journeyFlow == Some(flow)
      invariant |responses| == k + 1 && responses[0] == first
      invariant forall j :: 1 <= j <= k ==>
        responses[j] == Redirect303(if j < |flow| then flow[j] else CheckYourAnswers)
    {
      var r := s.SubmitPage();
      NextAllowedPageWalksFlow(flow, k + 1);
      responses := responses + [r];
    }
  }

  /** Selecting the national insurance number and then the name visits the name page first. */
  lemma NameAndNinoFlow()
    ensures RequiredJourneyFlow(["National Insurance number", "Name"]) == [OpName, OpNino]
  {
    RedirectMapWellFormed();
    var picked := ["National Insurance number", "Name"];
    FlowOfPrefixStep(picked, 0);
    FlowOfPrefixStep(picked, 1);
    FlowOfPrefixStep(picked, 2);
    FlowOfPrefixStep(picked, 3);
    FlowOfPrefixStep(picked, 4);
    assert FlowOf(RedirectMap[..5], picked) == [OpName, OpNino];
    FlowOfPrefixStep(picked, 5);
    assert RedirectMap[..|RedirectMap|] == RedirectMap;
  }
}
