/**
 * `POST /api/projects/request-review` (app/api/projects/request-review/route.ts):
 * the owner of a project submits it for review. The project moves to
 * `in_review` and, when some user is a mentor, a pending review assigned to
 * the first mentor is created.
 */
module RequestReview {
  import opened Common
  import opened Store

  datatype ReviewRequest = ReviewRequest(projectId: Id)

  const FailedToRequest: string := "Failed to request review"

  /** The position of the first mentor in storage order; `|users|` when there is none. */
  function FirstMentorAt(users: seq<User>): (i: nat)
    ensures i <= |users|
    ensures forall j | 0 <= j < i :: users[j].role != Mentor
    ensures i < |users| ==> users[i].role == Mentor
  {
    if users == [] || users[0].role == Mentor then 0 else 1 + FirstMentorAt(users[1..])
  }

  /** `.eq("role", "mentor").limit(1)` on `users`: the id of the first mentor, if any. */
  function FirstMentor(users: seq<User>): (r: Option<Id>)
    ensures r.None? <==> forall i | 0 <= i < |users| :: users[i].role != Mentor
    ensures r.Some? ==> exists i | 0 <= i < |users| ::
              users[i].role == Mentor && users[i].id == r.value
              && forall j | 0 <= j < i :: users[j].role != Mentor
  {
    var i := FirstMentorAt(users);
    if i < |users| then Some(users[i].id) else None
  }

  /** The row inserted for a mentor: checklist, rating and comments left empty, not verified. */
  function PendingReview(projectId: Id, mentorId: Id): (r: Review)
    ensures r.projectId == projectId && r.mentorId == mentorId && !r.verified
    ensures r.meetsBrief.None? && r.coreFunctional.None? && r.docsOk.None? && r.demoOk.None?
    ensures r.rating.None? && r.comments.None?
  {
    Review(projectId, mentorId, None, None, None, None, None, None, false)
  }

  /** The checks before any write: a session, a readable body, and a project the caller owns. */
  predicate Admitted(session: Option<AuthUser>, body: Result<ReviewRequest, string>, projects: map<Id, Project>)
  {
    && session.Some? && body.Ok? && body.value.projectId in projects
    && projects[body.value.projectId].ownerId == session.value.id
  }

  /** The tables the route writes, and its answer. */
  datatype Outcome = Outcome(resp: Response, projects: map<Id, Project>, reviews: map<Id, Review>, nextId: nat)

  /**
   * What one `POST` does. `updateError` is the error of the status update;
   * `mentorQueryFailed` makes the mentor lookup return no rows; the result of
   * the review insert is not read by the route, so `reviewInsertFails` only
   * decides whether the row appears.
   */
  function Requested(users: seq<User>, projects: map<Id, Project>, reviews: map<Id, Review>, nextId: nat,
                     session: Option<AuthUser>, body: Result<ReviewRequest, string>,
                     updateError: Option<string>, mentorQueryFailed: bool, reviewInsertFails: bool): Outcome
  {
    if session.None? then Outcome(Response(401, ErrorBody("Unauthorized")), projects, reviews, nextId)
    else if body.Err? then
      Outcome(Response(500, ErrorBody(Message(body.error, FailedToRequest))), projects, reviews, nextId)
    else if body.value.projectId !in projects || projects[body.value.projectId].ownerId != session.value.id then
      Outcome(Response(403, ErrorBody("Unauthorized")), projects, reviews, nextId)
    else if updateError.Some? then
      Outcome(Response(500, ErrorBody(Message(updateError.value, FailedToRequest))), projects, reviews, nextId)
    else
      var pid := body.value.projectId;
      var projects' := projects[pid := projects[pid].(status := InReview)];
      var mentor := if mentorQueryFailed then None else FirstMentor(users);
      if mentor.Some? && !reviewInsertFails then
        Outcome(Response(200, SuccessBody), projects', reviews[nextId := PendingReview(pid, mentor.value)], nextId + 1)
      else
        Outcome(Response(200, SuccessBody), projects', reviews, nextId)
  }

  /** `POST /api/projects/request-review` against the store `db`. */
  method Post(db: Db, session: Option<AuthUser>, body: Result<ReviewRequest, string>,
              updateError: Option<string>, mentorQueryFailed: bool, reviewInsertFails: bool)
    returns (resp: Response)
    requires db.Valid()
    modifies db
    ensures db.Valid()
    ensures db.launchPacks == old(db.launchPacks) && db.milestones == old(db.milestones) && db.users == old(db.users)
    ensures db.projectMilestones == old(db.projectMilestones) && db.portfolios == old(db.portfolios)
    ensures Outcome(resp, db.projects, db.reviews, db.nextId)
            == Requested(old(db.users), old(db.projects), old(db.reviews), old(db.nextId), session, body,
                         updateError, mentorQueryFailed, reviewInsertFails)
  {
    RequestKeepsConsistent(db.users, db.projects, db.projectMilestones, db.reviews, db.portfolios, db.nextId,
                           session, body, updateError, mentorQueryFailed, reviewInsertFails);
    if session.None? {
      return Response(401, ErrorBody("Unauthorized"));
    }
    var user := session.value;
    if body.Err? {
      return Response(500, ErrorBody(Message(body.error, FailedToRequest)));
    }
    var pid := body.value.projectId;
    if pid !in db.projects || db.projects[pid].ownerId != user.id {
      return Response(403, ErrorBody("Unauthorized"));
    }
    if updateError.Some? {
      return Response(500, ErrorBody(Message(updateError.value, FailedToRequest)));
    }
    db.projects := db.projects[pid := db.projects[pid].(status := InReview)];
    var mentor := if mentorQueryFailed then None else FirstMentor(db.users);
    if mentor.Some? && !reviewInsertFails {
      db.reviews := db.reviews[db.nextId := PendingReview(pid, mentor.value)];
      db.nextId := db.nextId + 1;
    }
    resp := Response(200, SuccessBody);
  }

  /** A request that is not admitted, or whose status update fails, answers with its error and writes nothing. */
  lemma RequestRejections(users: seq<User>, projects: map<Id, Project>, reviews: map<Id, Review>, nextId: nat,
                          session: Option<AuthUser>, body: Result<ReviewRequest, string>,
                          updateError: Option<string>, mentorQueryFailed: bool, reviewInsertFails: bool)
    ensures var o := Requested(users, projects, reviews, nextId, session, body,
                               updateError, mentorQueryFailed, reviewInsertFails);
            && (!Admitted(session, body, projects) || updateError.Some? <==> o.resp.status != 200)
            && (o.resp.status != 200 ==> o.projects == projects && o.reviews == reviews && o.nextId == nextId)
            && (session.None? ==> o.resp == Response(401, ErrorBody("Unauthorized")))
            && (session.Some? && body.Err? ==> o.resp == Response(500, ErrorBody(Message(body.error, FailedToRequest))))
            && (session.Some? && body.Ok? && !Admitted(session, body, projects) ==>
                  o.resp == Response(403, ErrorBody("Unauthorized")))
            && (Admitted(session, body, projects) && updateError.Some? ==>
                  o.resp == Response(500, ErrorBody(Message(updateError.value, FailedToRequest))))
  {
  }

  /**
   * An admitted request moves the project to `in_review` from whatever status
   * it had, changes nothing else about it or any other project, and adds at
   * most one review: a pending one, for the first mentor, under the next id.
   */
  lemma RequestMovesToReview(users: seq<User>, projects: map<Id, Project>, reviews: map<Id, Review>, nextId: nat,
                             session: Option<AuthUser>, body: Result<ReviewRequest, string>,
                             mentorQueryFailed: bool, reviewInsertFails: bool)
    requires Admitted(session, body, projects)
    requires forall k | k in reviews :: k < nextId
    ensures var o := Requested(users, projects, reviews, nextId, session, body, None, mentorQueryFailed,
                               reviewInsertFails);
            var pid := body.value.projectId;
            && o.resp == Response(200, SuccessBody)
            && o.projects.Keys == projects.Keys
            && o.projects[pid] == projects[pid].(status := InReview)
            && (forall k | k in projects && k != pid :: o.projects[k] == projects[k])
            && (o.reviews == reviews <==> mentorQueryFailed || reviewInsertFails || FirstMentor(users).None?)
            && (o.reviews != reviews ==>
                  && o.reviews == reviews[nextId := PendingReview(pid, FirstMentor(users).value)]
                  && o.nextId == nextId + 1)
  {
    var o := Requested(users, projects, reviews, nextId, session, body, None, mentorQueryFailed, reviewInsertFails);
    if !mentorQueryFailed && !reviewInsertFails && FirstMentor(users).Some? {
      assert nextId in o.reviews && nextId !in reviews;
    }
  }

  /** The store's invariant holds after every `POST`, whatever it answers. */
  lemma RequestKeepsConsistent(users: seq<User>, projects: map<Id, Project>, pms: map<Id, ProjectMilestone>,
                               reviews: map<Id, Review>, portfolios: map<Id, Portfolio>, nextId: nat,
                               session: Option<AuthUser>, body: Result<ReviewRequest, string>,
                               updateError: Option<string>, mentorQueryFailed: bool, reviewInsertFails: bool)
    requires Consistent(projects, pms, reviews, portfolios, nextId)
    ensures var o := Requested(users, projects, reviews, nextId, session, body,
                               updateError, mentorQueryFailed, reviewInsertFails);
            Consistent(o.projects, pms, o.reviews, portfolios, o.nextId)
  {
  }

  /**
   * Nothing stops a second request: with a mentor present, two successful
   * requests for the same project leave two pending reviews of it.
   */
  lemma RepeatedRequestsAddReviews(users: seq<User>, projects: map<Id, Project>, reviews: map<Id, Review>,
                                   nextId: nat, session: Option<AuthUser>, body: Result<ReviewRequest, string>)
    requires Admitted(session, body, projects)
    requires FirstMentor(users).Some?
    requires forall k | k in reviews :: k < nextId
    ensures var first := Requested(users, projects, reviews, nextId, session, body, None, false, false);
            var second := Requested(users, first.projects, first.reviews, first.nextId, session, body,
                                    None, false, false);
            && second.resp == Response(200, SuccessBody)
            && nextId in second.reviews && nextId + 1 in second.reviews
            && second.reviews[nextId].projectId == second.reviews[nextId + 1].projectId == body.value.projectId
            && |second.reviews.Keys| == |reviews.Keys| + 2
  {
    var first := Requested(users, projects, reviews, nextId, session, body, None, false, false);
    assert nextId !in reviews;
    assert first.reviews.Keys == reviews.Keys + {nextId};
    assert Admitted(session, body, first.projects);
    var second := Requested(users, first.projects, first.reviews, first.nextId, session, body, None, false, false);
    assert nextId + 1 !in first.reviews;
    assert second.reviews.Keys == first.reviews.Keys + {nextId + 1};
  }
}
