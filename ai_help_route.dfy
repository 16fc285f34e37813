/**
 * `POST /api/ai/help` (app/api/ai/help/route.ts): checks that both titles are
 * present and answers with the milestone help that `getMilestoneHelp`
 * produces, or with its error.
 */
module HelpRoute {
  import opened Common
  import opened AiCache
  import opened AiContent
  import opened Store

  /** The request body; an absent field is `None`. */
  datatype HelpRequest = HelpRequest(milestoneTitle: Option<string>, projectTitle: Option<string>)

  const FailedToHelp: string := "Failed to get AI help"
  const TitlesRequired: string := "milestoneTitle and projectTitle are required"

  /** `!milestoneTitle || !projectTitle`: a title is missing when it is absent or empty. */
  predicate MissingTitle(req: HelpRequest)
  {
    req.milestoneTitle.None? || req.milestoneTitle.value == []
    || req.projectTitle.None? || req.projectTitle.value == []
  }

  /**
   * The answer for a generator result: its data with status 200, or its
   * error with status 500. An absent error is dropped by JSON
   * serialisation, leaving an empty object.
   */
  function Answer(result: AIResponse): (resp: Response)
    ensures resp.status == 200 <==> result.success
    ensures result.success ==> resp.body == JsonBody(result.data)
    ensures !result.success && result.error.Some? ==> resp == Response(500, ErrorBody(result.error.value))
  {
    if !result.success then
      Response(500, if result.error.Some? then ErrorBody(result.error.value) else EmptyBody)
    else Response(200, JsonBody(result.data))
  }

  /** What the route answers, whether the completion service was called, and the cache it leaves. */
  datatype Handled = Handled(resp: Response, asked: bool, rows: map<string, Entry>)

  /** One `POST`, as a function of the cache it starts from. */
  function Handle(rows: map<string, Entry>, body: Result<HelpRequest, string>, now: int, lookupFailed: bool,
                  completion: Completion, parse: string -> Result<Json, string>, createdAt: int): Handled
  {
    if body.Err? then Handled(Response(500, ErrorBody(Message(body.error, FailedToHelp))), false, rows)
    else if MissingTitle(body.value) then Handled(Response(400, ErrorBody(TitlesRequired)), false, rows)
    else
      var req := Help(body.value.milestoneTitle.value, body.value.projectTitle.value);
      var run := Protocol(rows, req, now, lookupFailed, completion, parse, createdAt);
      Handled(Answer(run.response), run.asked, run.rows)
  }

  /** `POST /api/ai/help` against the cache table `cache`. */
  method Post(cache: Table, body: Result<HelpRequest, string>, now: int, lookupFailed: bool,
              completion: Completion, parse: string -> Result<Json, string>, createdAt: int)
    returns (resp: Response, asked: bool)
    modifies cache
    ensures Handled(resp, asked, cache.rows)
            == Handle(old(cache.rows), body, now, lookupFailed, completion, parse, createdAt)
  {
    if body.Err? {
      return Response(500, ErrorBody(Message(body.error, FailedToHelp))), false;
    }
    var req := body.value;
    if MissingTitle(req) {
      return Response(400, ErrorBody(TitlesRequired)), false;
    }
    var result;
    result, asked := Generate(cache, Help(req.milestoneTitle.value, req.projectTitle.value), now, lookupFailed,
                              completion, parse, createdAt);
    resp := Answer(result);
  }

  /** A missing or empty title is refused with 400 before the cache or the service is touched. */
  lemma MissingTitleIsRefused(rows: map<string, Entry>, req: HelpRequest, now: int, lookupFailed: bool,
                              completion: Completion, parse: string -> Result<Json, string>, createdAt: int)
    ensures var h := Handle(rows, Ok(req), now, lookupFailed, completion, parse, createdAt);
            && (MissingTitle(req) <==> h.resp.status == 400)
            && (MissingTitle(req) ==> h.resp.body == ErrorBody(TitlesRequired) && !h.asked && h.rows == rows)
  {
    var h := Handle(rows, Ok(req), now, lookupFailed, completion, parse, createdAt);
    if !MissingTitle(req) {
      assert h.resp.status == 200 || h.resp.status == 500;
    }
  }

  /** A body that cannot be read answers 500 with its message, before the cache or the service is touched. */
  lemma UnreadableBodyIsRefused(rows: map<string, Entry>, m: string, now: int, lookupFailed: bool,
                                completion: Completion, parse: string -> Result<Json, string>, createdAt: int)
    ensures var h := Handle(rows, Err(m), now, lookupFailed, completion, parse, createdAt);
            && h.resp == Response(500, ErrorBody(Message(m, FailedToHelp)))
            && h.resp.body.error != []
            && !h.asked && h.rows == rows
  {
  }

  /**
   * With both titles present the route answers 200 with the help object
   * exactly when the generator succeeds; when it fails the answer is 500
   * with a non-empty error message, never an empty body.
   */
  lemma HelpAnswers(rows: map<string, Entry>, milestone: string, project: string, now: int, lookupFailed: bool,
                    completion: Completion, parse: string -> Result<Json, string>, createdAt: int)
    requires milestone != [] && project != []
    ensures var h := Handle(rows, Ok(HelpRequest(Some(milestone), Some(project))), now, lookupFailed,
                            completion, parse, createdAt);
            var run := Protocol(rows, Help(milestone, project), now, lookupFailed, completion, parse, createdAt);
            && (h.resp.status == 200 <==> run.response.success)
            && (h.resp.status == 200 ==> h.resp.body == JsonBody(run.response.data))
            && (h.resp.status != 200 ==>
                  h.resp.status == 500 && h.resp.body.ErrorBody? && h.resp.body.error != [])
            && h.asked == run.asked && h.rows == run.rows
  {
    var run := Protocol(rows, Help(milestone, project), now, lookupFailed, completion, parse, createdAt);
    if !run.response.success {
      var m := Attempt(completion, parse).error;
      assert run.response.error == Some(Message(m, DefaultError(Help(milestone, project))));
    }
  }
}
