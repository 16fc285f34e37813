/**
 * `POST /api/portfolios/create` (app/api/portfolios/create/route.ts): a
 * project is published with a portfolio row that carries its public URL, the
 * mentor's comment, a verified badge and a snapshot of the owner's
 * reliability score; the project then moves to `published`.
 */
module CreatePortfolio {
  import opened Common
  import opened Store

  datatype PortfolioRequest = PortfolioRequest(projectId: Id, reviewId: Id)

  const FailedToCreate: string := "Failed to create portfolio"

  /** `owner?.reliability_score || 0`: a missing owner, a null score and a zero score all give 0. */
  function ScoreSnapshot(owner: Option<User>): (r: int)
    ensures owner.Some? && owner.value.reliabilityScore.Some? ==> r == owner.value.reliabilityScore.value
    ensures owner.None? || owner.value.reliabilityScore.None? ==> r == 0
  {
    match owner
    case None => 0
    case Some(u) =>
      match u.reliabilityScore
      case None => 0
      case Some(s) => if s == 0 then 0 else s
  }

  /** `${NEXT_PUBLIC_APP_URL}/portfolio/${slug}`; an unset variable prints as "undefined". */
  function PublicUrl(appUrl: Option<string>, slug: string): (r: string)
    ensures appUrl.Some? ==> r == appUrl.value + "/portfolio/" + slug
    ensures appUrl.None? ==> r == "undefined/portfolio/" + slug
  {
    (if appUrl.Some? then appUrl.value else "undefined") + "/portfolio/" + slug
  }

  /** The portfolio row for `project`, published from `review`, with the owner found in `users`. */
  function PortfolioRow(projectId: Id, project: Project, review: Review, users: seq<User>,
                        appUrl: Option<string>): (p: Portfolio)
    ensures p.projectId == projectId && p.verifiedBadge
    ensures p.mentorComment == review.comments
  {
    Portfolio(projectId, PublicUrl(appUrl, project.publicSlug), review.comments, true,
              ScoreSnapshot(FindUser(users, project.ownerId)))
  }

  /** The tables the route writes, and its answer. */
  datatype Outcome = Outcome(resp: Response, projects: map<Id, Project>, portfolios: map<Id, Portfolio>, nextId: nat)

  /**
   * What one `POST` does. `insertError` is the error of the portfolio insert;
   * the result of the status update is not read by the route, so
   * `statusUpdateFails` only decides whether the status changes.
   */
  function Publish(users: seq<User>, projects: map<Id, Project>, reviews: map<Id, Review>,
                   portfolios: map<Id, Portfolio>, nextId: nat,
                   session: Option<AuthUser>, body: Result<PortfolioRequest, string>, appUrl: Option<string>,
                   insertError: Option<string>, statusUpdateFails: bool): Outcome
  {
    if session.None? then Outcome(Response(401, ErrorBody("Unauthorized")), projects, portfolios, nextId)
    else if body.Err? then
      Outcome(Response(500, ErrorBody(Message(body.error, FailedToCreate))), projects, portfolios, nextId)
    else if body.value.projectId !in projects || body.value.reviewId !in reviews then
      Outcome(Response(404, ErrorBody("Project or review not found")), projects, portfolios, nextId)
    else if insertError.Some? then
      Outcome(Response(500, ErrorBody(Message(insertError.value, FailedToCreate))), projects, portfolios, nextId)
    else
      var pid := body.value.projectId;
      var row := PortfolioRow(pid, projects[pid], reviews[body.value.reviewId], users, appUrl);
      var projects' := if statusUpdateFails then projects else projects[pid := projects[pid].(status := Published)];
      Outcome(Response(200, PortfolioCreated(row)), projects', portfolios[nextId := row], nextId + 1)
  }

  /** `POST /api/portfolios/create` against the store `db`. */
  method Post(db: Db, session: Option<AuthUser>, body: Result<PortfolioRequest, string>, appUrl: Option<string>,
              insertError: Option<string>, statusUpdateFails: bool)
    returns (resp: Response)
    requires db.Valid()
    modifies db
    ensures db.Valid()
    ensures db.launchPacks == old(db.launchPacks) && db.milestones == old(db.milestones) && db.users == old(db.users)
    ensures db.projectMilestones == old(db.projectMilestones) && db.reviews == old(db.reviews)
    ensures Outcome(resp, db.projects, db.portfolios, db.nextId)
            == Publish(old(db.users), old(db.projects), old(db.reviews), old(db.portfolios), old(db.nextId),
                       session, body, appUrl, insertError, statusUpdateFails)
  {
    PublishKeepsConsistent(db.users, db.projects, db.projectMilestones, db.reviews, db.portfolios, db.nextId,
                           session, body, appUrl, insertError, statusUpdateFails);
    if session.None? {
      return Response(401, ErrorBody("Unauthorized"));
    }
    if body.Err? {
      return Response(500, ErrorBody(Message(body.error, FailedToCreate)));
    }
    var req := body.value;
    if req.projectId !in db.projects || req.reviewId !in db.reviews {
      return Response(404, ErrorBody("Project or review not found"));
    }
    var project := db.projects[req.projectId];
    var review := db.reviews[req.reviewId];
    var owner := FindUser(db.users, project.ownerId);
    var url := PublicUrl(appUrl, project.publicSlug);
    if insertError.Some? {
      return Response(500, ErrorBody(Message(insertError.value, FailedToCreate)));
    }
    var row := Portfolio(req.projectId, url, review.comments, true, ScoreSnapshot(owner));
    db.portfolios := db.portfolios[db.nextId := row];
    db.nextId := db.nextId + 1;
    if !statusUpdateFails {
      db.projects := db.projects[req.projectId := project.(status := Published)];
    }
    resp := Response(200, PortfolioCreated(row));
  }

  /**
   * A request answers 200 exactly when it is signed in, readable, names an
   * existing project and review, and the insert succeeds; every other
   * request answers with its error and writes nothing.
   */
  lemma PublishRejections(users: seq<User>, projects: map<Id, Project>, reviews: map<Id, Review>,
                          portfolios: map<Id, Portfolio>, nextId: nat,
                          session: Option<AuthUser>, body: Result<PortfolioRequest, string>, appUrl: Option<string>,
                          insertError: Option<string>, statusUpdateFails: bool)
    ensures var o := Publish(users, projects, reviews, portfolios, nextId, session, body, appUrl,
                             insertError, statusUpdateFails);
            && (o.resp.status == 200 <==>
                  session.Some? && body.Ok? && body.value.projectId in projects
                  && body.value.reviewId in reviews && insertError.None?)
            && (o.resp.status != 200 ==>
                  o.projects == projects && o.portfolios == portfolios && o.nextId == nextId)
            && (session.None? ==> o.resp == Response(401, ErrorBody("Unauthorized")))
            && (session.Some? && body.Err? ==> o.resp == Response(500, ErrorBody(Message(body.error, FailedToCreate))))
            && (session.Some? && body.Ok?
                && (body.value.projectId !in projects || body.value.reviewId !in reviews) ==>
                  o.resp == Response(404, ErrorBody("Project or review not found")))
            && (session.Some? && body.Ok? && body.value.projectId in projects && body.value.reviewId in reviews
                && insertError.Some? ==>
                  o.resp == Response(500, ErrorBody(Message(insertError.value, FailedToCreate))))
  {
  }

  /**
   * A successful request adds one badge-carrying portfolio for the project
   * under the next id, with the comment of the named review and the owner's
   * score, and returns it; the project is `published` unless the status
   * update failed, and no other project changes.
   */
  lemma PublishCreatesPortfolio(users: seq<User>, projects: map<Id, Project>, reviews: map<Id, Review>,
                                portfolios: map<Id, Portfolio>, nextId: nat,
                                session: Option<AuthUser>, body: Result<PortfolioRequest, string>,
                                appUrl: Option<string>, statusUpdateFails: bool)
    requires session.Some? && body.Ok? && body.value.projectId in projects && body.value.reviewId in reviews
    ensures var o := Publish(users, projects, reviews, portfolios, nextId, session, body, appUrl,
                             None, statusUpdateFails);
            var pid := body.value.projectId;
            var project := projects[pid];
            && o.resp.status == 200 && o.resp.body.PortfolioCreated?
            && o.portfolios == portfolios[nextId := o.resp.body.portfolio]
            && o.resp.body.portfolio.projectId == pid && o.resp.body.portfolio.verifiedBadge
            && o.resp.body.portfolio.mentorComment == reviews[body.value.reviewId].comments
            && o.resp.body.portfolio.publicUrl == PublicUrl(appUrl, project.publicSlug)
            && o.resp.body.portfolio.reliabilityScoreSnapshot == ScoreSnapshot(FindUser(users, project.ownerId))
            && o.nextId == nextId + 1
            && o.projects.Keys == projects.Keys
            && (forall k | k in projects && k != pid :: o.projects[k] == projects[k])
            && o.projects[pid] == (if statusUpdateFails then project else project.(status := Published))
  {
  }

  /**
   * The route checks neither who asks nor what the review says: any signed-in
   * user gets the same outcome, and a review that is not verified, or that
   * belongs to another project, publishes just the same.
   */
  lemma PublishIgnoresCallerAndReview(users: seq<User>, projects: map<Id, Project>, reviews: map<Id, Review>,
                                      portfolios: map<Id, Portfolio>, nextId: nat,
                                      a: AuthUser, b: AuthUser, req: PortfolioRequest, appUrl: Option<string>,
                                      insertError: Option<string>, statusUpdateFails: bool)
    requires req.reviewId in reviews
    ensures Publish(users, projects, reviews, portfolios, nextId, Some(a), Ok(req), appUrl, insertError,
                    statusUpdateFails)
            == Publish(users, projects, reviews, portfolios, nextId, Some(b), Ok(req), appUrl, insertError,
                       statusUpdateFails)
    ensures var flipped := reviews[req.reviewId := reviews[req.reviewId].(verified := false, projectId := 0)];
            Publish(users, projects, reviews, portfolios, nextId, Some(a), Ok(req), appUrl, insertError,
                    statusUpdateFails)
            == Publish(users, projects, flipped, portfolios, nextId, Some(a), Ok(req), appUrl, insertError,
                       statusUpdateFails)
  {
  }

  /** The store's invariant holds after every `POST`, whatever it answers. */
  lemma PublishKeepsConsistent(users: seq<User>, projects: map<Id, Project>, pms: map<Id, ProjectMilestone>,
                               reviews: map<Id, Review>, portfolios: map<Id, Portfolio>, nextId: nat,
                               session: Option<AuthUser>, body: Result<PortfolioRequest, string>,
                               appUrl: Option<string>, insertError: Option<string>, statusUpdateFails: bool)
    requires Consistent(projects, pms, reviews, portfolios, nextId)
    ensures var o := Publish(users, projects, reviews, portfolios, nextId, session, body, appUrl,
                             insertError, statusUpdateFails);
            Consistent(o.projects, pms, reviews, o.portfolios, o.nextId)
  {
  }

  /** Publishing the same project twice leaves two portfolio rows for it: nothing prevents duplicates. */
  lemma PublishingTwiceDuplicates(users: seq<User>, projects: map<Id, Project>, pms: map<Id, ProjectMilestone>,
                                  reviews: map<Id, Review>, portfolios: map<Id, Portfolio>, nextId: nat,
                                  user: AuthUser, req: PortfolioRequest, appUrl: Option<string>)
    requires Consistent(projects, pms, reviews, portfolios, nextId)
    requires req.projectId in projects && req.reviewId in reviews
    ensures var first := Publish(users, projects, reviews, portfolios, nextId, Some(user), Ok(req), appUrl,
                                 None, false);
            var second := Publish(users, first.projects, reviews, first.portfolios, first.nextId, Some(user),
                                  Ok(req), appUrl, None, false);
            && second.resp.status == 200
            && nextId in second.portfolios && nextId + 1 in second.portfolios
            && second.portfolios[nextId].projectId == second.portfolios[nextId + 1].projectId == req.projectId
            && |second.portfolios.Keys| == |portfolios.Keys| + 2
  {
    var first := Publish(users, projects, reviews, portfolios, nextId, Some(user), Ok(req), appUrl, None, false);
    assert nextId !in portfolios;
    assert first.portfolios.Keys == portfolios.Keys + {nextId};
    var second := Publish(users, first.projects, reviews, first.portfolios, first.nextId, Some(user), Ok(req),
                          appUrl, None, false);
    assert nextId + 1 !in first.portfolios;
    assert second.portfolios.Keys == first.portfolios.Keys + {nextId + 1};
  }
}
