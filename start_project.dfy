/**
 * `POST /api/projects/start` (app/api/projects/start/route.ts): a signed-in
 * student starts a launch pack; the route creates the project row and one
 * `project_milestones` row per template milestone of the pack.
 */
module StartProject {
  import opened Common
  import opened Text
  import opened Store

  datatype StartRequest = StartRequest(launchPackId: Id, userId: Id)

  const FailedToStart: string := "Failed to start project"

  /** `user.email?.split("@")[0]` as a template literal prints it. */
  function EmailLocalPart(email: Option<string>): string
  {
    match email
    case None => "undefined"
    case Some(e) => Split(e, '@')[0]
  }

  /** The local part of an address is what comes before its first `@`. */
  lemma LocalPartOfAddress(local: string, domain: string)
    requires '@' !in local
    ensures EmailLocalPart(Some(local + "@" + domain)) == local
  {
    SplitAtFirstSeparator(local, '@', domain);
  }

  /** The title of a new project: the pack's title, " - " and the owner's email local part. */
  function ProjectTitle(packTitle: string, email: Option<string>): string
  {
    packTitle + " - " + EmailLocalPart(email)
  }

  // ---------------------------------------------------------------------------
  // The milestone query: `.eq("launch_pack_id", id).order("order_index")`

  /** The template milestones of one pack, in storage order. */
  function OfPack(ms: seq<Milestone>, packId: Id): (r: seq<Milestone>)
    ensures forall i | 0 <= i < |r| :: r[i].launchPackId == packId
    ensures forall m | m in ms && m.launchPackId == packId :: m in r
    ensures forall m | m in r :: m in ms
    ensures forall m :: multiset(r)[m] == if m.launchPackId == packId then multiset(ms)[m] else 0
  {
    if ms == [] then []
    else
      assert ms == [ms[0]] + ms[1..];
      if ms[0].launchPackId == packId then [ms[0]] + OfPack(ms[1..], packId)
      else OfPack(ms[1..], packId)
  }

  predicate SortedByOrder(ms: seq<Milestone>)
  {
    forall i, j | 0 <= i < j < |ms| :: ms[i].orderIndex <= ms[j].orderIndex
  }

  /** Places `m` before the first milestone whose order index is not smaller. */
  function InsertByOrder(m: Milestone, ms: seq<Milestone>): (r: seq<Milestone>)
    requires SortedByOrder(ms)
    ensures SortedByOrder(r)
    ensures multiset(r) == multiset(ms) + multiset{m}
    ensures |r| == |ms| + 1
    ensures r[0] == m || (ms != [] && r[0] == ms[0])
  {
    if ms == [] || m.orderIndex <= ms[0].orderIndex then [m] + ms
    else
      var rest := InsertByOrder(m, ms[1..]);
      assert ms == [ms[0]] + ms[1..];
      [ms[0]] + rest
  }

  /** Orders milestones by ascending order index; equal indexes keep their storage order. */
  function SortByOrder(ms: seq<Milestone>): (r: seq<Milestone>)
    ensures SortedByOrder(r)
    ensures multiset(r) == multiset(ms)
  {
    if ms == [] then []
    else
      assert ms == [ms[0]] + ms[1..];
      InsertByOrder(ms[0], SortByOrder(ms[1..]))
  }

  /** The rows the milestone query returns: exactly the pack's milestones, ordered by order index. */
  function PackMilestones(ms: seq<Milestone>, packId: Id): (r: seq<Milestone>)
    ensures SortedByOrder(r)
    ensures multiset(r) == multiset(OfPack(ms, packId))
    ensures forall m | m in r :: m in ms && m.launchPackId == packId
    ensures forall m | m in ms && m.launchPackId == packId :: m in r
    ensures forall m :: multiset(r)[m] == if m.launchPackId == packId then multiset(ms)[m] else 0
  {
    var r := SortByOrder(OfPack(ms, packId));
    assert forall m :: m in r <==> m in multiset(r);
    r
  }

  // ---------------------------------------------------------------------------
  // Rows the route writes

  /** The project row the route inserts. */
  function NewProject(ownerId: Id, packId: Id, pack: LaunchPack, email: Option<string>,
                      slug: string, now: int): (p: Project)
    ensures p.status == InProgress && p.progressPercent == 0 && p.ownerId == ownerId
    ensures p.title == pack.title + " - " + EmailLocalPart(email)
    ensures p.launchPackId == packId && p.publicSlug == slug
    ensures p.shortSummary == "Building " + pack.title && p.startedAt == now
  {
    Project(ownerId, packId, ProjectTitle(pack.title, email), "Building " + pack.title,
            InProgress, 0, now, slug)
  }

  /** `milestones.map(...)`: one uncompleted row per milestone, given consecutive ids from `firstId`. */
  function MilestoneRows(projectId: Id, ms: seq<Milestone>, firstId: Id): (rows: map<Id, ProjectMilestone>)
    ensures forall k: nat :: k in rows <==> firstId <= k < firstId + |ms|
    ensures forall i | 0 <= i < |ms| :: rows[firstId + i] == ProjectMilestone(projectId, ms[i].id, false)
    ensures forall k | k in rows :: rows[k].projectId == projectId && !rows[k].completed
  {
    if ms == [] then map[]
    else
      var last := |ms| - 1;
      MilestoneRows(projectId, ms[..last], firstId)[firstId + last := ProjectMilestone(projectId, ms[last].id, false)]
  }

  /** The milestones the route seeds from: none when the query reports an error. */
  function Seeds(ms: seq<Milestone>, packId: Id, queryFailed: bool): seq<Milestone>
  {
    if queryFailed then [] else PackMilestones(ms, packId)
  }

  /** The public slug: `generateSlug(title)`, a dash and the base-36 timestamp `stamp`. */
  function Slug(generateSlug: string -> string, pack: LaunchPack, email: Option<string>, stamp: string): string
  {
    generateSlug(ProjectTitle(pack.title, email)) + "-" + stamp
  }

  /** The checks before any write: a session, a readable body naming the session user, an existing pack. */
  predicate Admitted(session: Option<AuthUser>, body: Result<StartRequest, string>, packs: map<Id, LaunchPack>)
  {
    session.Some? && body.Ok? && body.value.userId == session.value.id && body.value.launchPackId in packs
  }

  /** The tables the route writes, and its answer. */
  datatype Outcome = Outcome(resp: Response, projects: map<Id, Project>,
                             projectMilestones: map<Id, ProjectMilestone>, nextId: nat)

  /**
   * What one `POST` does to the tables it writes. The pack, template
   * milestones and users are read only; `generateSlug`, the base-36 timestamp
   * `stamp`, the clock and the store's errors are parameters.
   */
  function Start(packs: map<Id, LaunchPack>, milestones: seq<Milestone>, projects: map<Id, Project>,
                 pms: map<Id, ProjectMilestone>, nextId: nat,
                 session: Option<AuthUser>, body: Result<StartRequest, string>,
                 generateSlug: string -> string, stamp: string, now: int,
                 milestoneQueryFailed: bool, projectInsertError: Option<string>,
                 milestoneInsertError: Option<string>): Outcome
  {
    if session.None? then Outcome(Response(401, ErrorBody("Unauthorized")), projects, pms, nextId)
    else if body.Err? then
      Outcome(Response(500, ErrorBody(Message(body.error, FailedToStart))), projects, pms, nextId)
    else if body.value.userId != session.value.id then
      Outcome(Response(403, ErrorBody("Unauthorized")), projects, pms, nextId)
    else if body.value.launchPackId !in packs then
      Outcome(Response(404, ErrorBody("Launch pack not found")), projects, pms, nextId)
    else if projectInsertError.Some? then
      Outcome(Response(500, ErrorBody(Message(projectInsertError.value, FailedToStart))), projects, pms, nextId)
    else
      var user := session.value;
      var packId := body.value.launchPackId;
      var pack := packs[packId];
      Created(projects, pms, nextId, user, packId, pack, Seeds(milestones, packId, milestoneQueryFailed),
              Slug(generateSlug, pack, user.email, stamp), now, milestoneInsertError)
  }

  /**
   * The writes after the checks: the project row under the next id, then one
   * row per seeded milestone under the ids after it, unless that insert
   * reports an error. An empty milestone list skips the second insert.
   */
  function Created(projects: map<Id, Project>, pms: map<Id, ProjectMilestone>, nextId: nat,
                   user: AuthUser, packId: Id, pack: LaunchPack, ms: seq<Milestone>, slug: string, now: int,
                   milestoneInsertError: Option<string>): Outcome
  {
    var projects' := projects[nextId := NewProject(user.id, packId, pack, user.email, slug, now)];
    if ms == [] then Outcome(Response(200, ProjectCreated(nextId)), projects', pms, nextId + 1)
    else if milestoneInsertError.Some? then
      Outcome(Response(500, ErrorBody(Message(milestoneInsertError.value, FailedToStart))),
              projects', pms, nextId + 1)
    else
      Outcome(Response(200, ProjectCreated(nextId)), projects',
              pms + MilestoneRows(nextId, ms, nextId + 1), nextId + 1 + |ms|)
  }

  /** `POST /api/projects/start` against the store `db`. */
  method Post(db: Db, session: Option<AuthUser>, body: Result<StartRequest, string>,
              generateSlug: string -> string, stamp: string, now: int,
              milestoneQueryFailed: bool, projectInsertError: Option<string>,
              milestoneInsertError: Option<string>)
    returns (resp: Response)
    requires db.Valid()
    modifies db
    ensures db.Valid()
    ensures db.launchPacks == old(db.launchPacks) && db.milestones == old(db.milestones)
    ensures db.users == old(db.users) && db.reviews == old(db.reviews) && db.portfolios == old(db.portfolios)
    ensures Outcome(resp, db.projects, db.projectMilestones, db.nextId)
            == Start(old(db.launchPacks), old(db.milestones), old(db.projects), old(db.projectMilestones),
                     old(db.nextId), session, body, generateSlug, stamp, now,
                     milestoneQueryFailed, projectInsertError, milestoneInsertError)
  {
    StartKeepsConsistent(db.launchPacks, db.milestones, db.projects, db.projectMilestones, db.reviews,
                         db.portfolios, db.nextId, session, body, generateSlug, stamp, now,
                         milestoneQueryFailed, projectInsertError, milestoneInsertError);
    if session.None? {
      return Response(401, ErrorBody("Unauthorized"));
    }
    var user := session.value;
    if body.Err? {
      return Response(500, ErrorBody(Message(body.error, FailedToStart)));
    }
    var req := body.value;
    if req.userId != user.id {
      return Response(403, ErrorBody("Unauthorized"));
    }
    if req.launchPackId !in db.launchPacks {
      return Response(404, ErrorBody("Launch pack not found"));
    }
    var pack := db.launchPacks[req.launchPackId];
    var ms := Seeds(db.milestones, req.launchPackId, milestoneQueryFailed);
    var slug := Slug(generateSlug, pack, user.email, stamp);
    if projectInsertError.Some? {
      return Response(500, ErrorBody(Message(projectInsertError.value, FailedToStart)));
    }
    resp := Insert(db, user, req.launchPackId, pack, ms, slug, now, milestoneInsertError);
  }

  /** The inserts of an admitted `POST`, against the store `db`. */
  method Insert(db: Db, user: AuthUser, packId: Id, pack: LaunchPack, ms: seq<Milestone>, slug: string,
                now: int, milestoneInsertError: Option<string>)
    returns (resp: Response)
    modifies db
    ensures db.launchPacks == old(db.launchPacks) && db.milestones == old(db.milestones)
    ensures db.users == old(db.users) && db.reviews == old(db.reviews) && db.portfolios == old(db.portfolios)
    ensures Outcome(resp, db.projects, db.projectMilestones, db.nextId)
            == Created(old(db.projects), old(db.projectMilestones), old(db.nextId), user, packId, pack, ms,
                       slug, now, milestoneInsertError)
  {
    var pid := db.nextId;
    db.projects := db.projects[pid := NewProject(user.id, packId, pack, user.email, slug, now)];
    db.nextId := pid + 1;
    if |ms| > 0 {
      if milestoneInsertError.Some? {
        return Response(500, ErrorBody(Message(milestoneInsertError.value, FailedToStart)));
      }
      var rows := MilestoneRows(pid, ms, db.nextId);
      db.projectMilestones := db.projectMilestones + rows;
      db.nextId := db.nextId + |ms|;
    }
    resp := Response(200, ProjectCreated(pid));
  }

  /** Every rejected request answers with its error and writes nothing. */
  lemma StartRejections(packs: map<Id, LaunchPack>, milestones: seq<Milestone>, projects: map<Id, Project>,
                        pms: map<Id, ProjectMilestone>, nextId: nat,
                        session: Option<AuthUser>, body: Result<StartRequest, string>,
                        generateSlug: string -> string, stamp: string, now: int,
                        milestoneQueryFailed: bool, projectInsertError: Option<string>,
                        milestoneInsertError: Option<string>)
    ensures var o := Start(packs, milestones, projects, pms, nextId, session, body, generateSlug, stamp, now,
                           milestoneQueryFailed, projectInsertError, milestoneInsertError);
            && (!Admitted(session, body, packs) || projectInsertError.Some? <==>
                  o.projects == projects && o.projectMilestones == pms && o.nextId == nextId
                  && o.resp.status != 200)
            && (session.None? ==> o.resp == Response(401, ErrorBody("Unauthorized")))
            && (session.Some? && body.Err? ==>
                  o.resp == Response(500, ErrorBody(Message(body.error, FailedToStart))))
            && (session.Some? && body.Ok? && body.value.userId != session.value.id ==>
                  o.resp == Response(403, ErrorBody("Unauthorized")))
            && (session.Some? && body.Ok? && body.value.userId == session.value.id
                && body.value.launchPackId !in packs ==>
                  o.resp == Response(404, ErrorBody("Launch pack not found")))
            && (Admitted(session, body, packs) && projectInsertError.Some? ==>
                  o.resp == Response(500, ErrorBody(Message(projectInsertError.value, FailedToStart))))
  {
  }

  /**
   * An admitted request with a successful project insert creates exactly one
   * new project under a fresh id, owned by the session user, in progress at
   * 0%. It answers 200 with that id unless seeding milestones failed, in
   * which case the project stays without milestone rows.
   */
  lemma StartCreatesProject(packs: map<Id, LaunchPack>, milestones: seq<Milestone>, projects: map<Id, Project>,
                            pms: map<Id, ProjectMilestone>, reviews: map<Id, Review>,
                            portfolios: map<Id, Portfolio>, nextId: nat,
                            session: Option<AuthUser>, body: Result<StartRequest, string>,
                            generateSlug: string -> string, stamp: string, now: int,
                            milestoneQueryFailed: bool, milestoneInsertError: Option<string>)
    requires Consistent(projects, pms, reviews, portfolios, nextId)
    requires Admitted(session, body, packs)
    ensures var o := Start(packs, milestones, projects, pms, nextId, session, body, generateSlug, stamp, now,
                           milestoneQueryFailed, None, milestoneInsertError);
            var ms := Seeds(milestones, body.value.launchPackId, milestoneQueryFailed);
            && nextId !in projects
            && o.projects.Keys == projects.Keys + {nextId}
            && (forall k | k in projects :: o.projects[k] == projects[k])
            && o.projects[nextId].ownerId == session.value.id
            && o.projects[nextId].launchPackId == body.value.launchPackId
            && o.projects[nextId].status == InProgress && o.projects[nextId].progressPercent == 0
            && (ms != [] && milestoneInsertError.Some? <==> o.resp.status == 500)
            && (o.resp.status == 500 ==> o.projectMilestones == pms)
            && (o.resp.status != 500 ==> o.resp == Response(200, ProjectCreated(nextId)))
            && o.projects[nextId].publicSlug
               == Slug(generateSlug, packs[body.value.launchPackId], session.value.email, stamp)
            && (o.resp.status == 200 ==>
                  o.projectMilestones == pms + MilestoneRows(nextId, ms, nextId + 1)
                  && o.nextId == nextId + 1 + |ms|)
            && (o.resp.status == 500 ==> o.nextId == nextId + 1)
  {
    var user := session.value;
    var packId := body.value.launchPackId;
    var pack := packs[packId];
    var ms := Seeds(milestones, packId, milestoneQueryFailed);
    var slug := Slug(generateSlug, pack, user.email, stamp);
    var o := Start(packs, milestones, projects, pms, nextId, session, body, generateSlug, stamp, now,
                   milestoneQueryFailed, None, milestoneInsertError);
    assert o == Created(projects, pms, nextId, user, packId, pack, ms, slug, now, milestoneInsertError);
    CreatedWrites(projects, pms, nextId, user, packId, pack, ms, slug, now, milestoneInsertError);
    assert nextId !in projects;
    assert o.projects[nextId] == NewProject(user.id, packId, pack, user.email, slug, now);
  }

  /** The writes after the checks, for any seeded milestones. */
  lemma CreatedWrites(projects: map<Id, Project>, pms: map<Id, ProjectMilestone>, nextId: nat,
                      user: AuthUser, packId: Id, pack: LaunchPack, ms: seq<Milestone>, slug: string, now: int,
                      milestoneInsertError: Option<string>)
    ensures var o := Created(projects, pms, nextId, user, packId, pack, ms, slug, now, milestoneInsertError);
            && o.projects == projects[nextId := NewProject(user.id, packId, pack, user.email, slug, now)]
            && o.projects.Keys == projects.Keys + {nextId}
            && (nextId !in projects ==> forall k | k in projects :: o.projects[k] == projects[k])
            && (ms != [] && milestoneInsertError.Some? <==> o.resp.status == 500)
            && (o.resp.status == 500 ==> o.projectMilestones == pms && o.nextId == nextId + 1)
            && (o.resp.status != 500 ==> o.resp == Response(200, ProjectCreated(nextId)))
            && (o.resp.status == 200 ==>
                  o.projectMilestones == pms + MilestoneRows(nextId, ms, nextId + 1)
                  && o.nextId == nextId + 1 + |ms|)
  {
    if ms == [] {
      assert MilestoneRows(nextId, ms, nextId + 1) == map[];
      assert pms + map[] == pms;
    }
  }

  /** The store's invariant holds after every `POST`, whatever it answers. */
  lemma StartKeepsConsistent(packs: map<Id, LaunchPack>, milestones: seq<Milestone>, projects: map<Id, Project>,
                             pms: map<Id, ProjectMilestone>, reviews: map<Id, Review>,
                             portfolios: map<Id, Portfolio>, nextId: nat,
                             session: Option<AuthUser>, body: Result<StartRequest, string>,
                             generateSlug: string -> string, stamp: string, now: int,
                             milestoneQueryFailed: bool, projectInsertError: Option<string>,
                             milestoneInsertError: Option<string>)
    requires Consistent(projects, pms, reviews, portfolios, nextId)
    ensures var o := Start(packs, milestones, projects, pms, nextId, session, body, generateSlug, stamp, now,
                           milestoneQueryFailed, projectInsertError, milestoneInsertError);
            Consistent(o.projects, o.projectMilestones, reviews, portfolios, o.nextId)
  {
    var o := Start(packs, milestones, projects, pms, nextId, session, body, generateSlug, stamp, now,
                   milestoneQueryFailed, projectInsertError, milestoneInsertError);
    if Admitted(session, body, packs) && projectInsertError.None? {
      var ms := Seeds(milestones, body.value.launchPackId, milestoneQueryFailed);
      if ms != [] && milestoneInsertError.None? {
        var rows := MilestoneRows(nextId, ms, nextId + 1);
        forall k | k in o.projectMilestones
          ensures k < o.nextId && o.projectMilestones[k].projectId in o.projects
        {
          if k in rows {
            assert o.projectMilestones[k] == rows[k];
          }
        }
      }
    }
  }

  /** Adding the rows of a new project `nextId` puts every row of that project at the fresh ids. */
  lemma {:induction false} RowsOfNewProject(projects: map<Id, Project>, pms: map<Id, ProjectMilestone>,
                                            reviews: map<Id, Review>, portfolios: map<Id, Portfolio>,
                                            nextId: nat, ms: seq<Milestone>)
    requires Consistent(projects, pms, reviews, portfolios, nextId)
    ensures var rows := pms + MilestoneRows(nextId, ms, nextId + 1);
            && (forall k | k in rows && rows[k].projectId == nextId :: nextId + 1 <= k < nextId + 1 + |ms|)
            && forall i | 0 <= i < |ms| :: rows[nextId + 1 + i] == ProjectMilestone(nextId, ms[i].id, false)
  {
    var seeded := MilestoneRows(nextId, ms, nextId + 1);
    var rows := pms + seeded;
    forall k | k in rows && rows[k].projectId == nextId
      ensures nextId + 1 <= k < nextId + 1 + |ms|
    {
      if k !in seeded {
        assert false;
      }
    }
    forall i | 0 <= i < |ms|
      ensures rows[nextId + 1 + i] == ProjectMilestone(nextId, ms[i].id, false)
    {
      assert nextId + 1 + i in seeded;
    }
  }

  /**
   * After a successful start, the milestone rows of the new project are
   * exactly the seeded ones, each uncompleted and naming its template
   * milestone, at consecutive ids in seeding order. When the query succeeded,
   * the seeds are the pack's template milestones, each exactly as often as it
   * is stored, ordered by order index.
   */
  lemma SeededRowsOfNewProject(packs: map<Id, LaunchPack>, milestones: seq<Milestone>, projects: map<Id, Project>,
                               pms: map<Id, ProjectMilestone>, reviews: map<Id, Review>,
                               portfolios: map<Id, Portfolio>, nextId: nat,
                               session: Option<AuthUser>, body: Result<StartRequest, string>,
                               generateSlug: string -> string, stamp: string, now: int,
                               milestoneQueryFailed: bool, milestoneInsertError: Option<string>)
    requires Consistent(projects, pms, reviews, portfolios, nextId)
    requires Admitted(session, body, packs)
    ensures var o := Start(packs, milestones, projects, pms, nextId, session, body, generateSlug, stamp, now,
                           milestoneQueryFailed, None, milestoneInsertError);
            var packId := body.value.launchPackId;
            var ms := Seeds(milestones, packId, milestoneQueryFailed);
            && (o.resp.status == 200 ==>
                  && (forall k | k in o.projectMilestones && o.projectMilestones[k].projectId == nextId ::
                        nextId + 1 <= k < nextId + 1 + |ms|)
                  && forall i | 0 <= i < |ms| ::
                       o.projectMilestones[nextId + 1 + i] == ProjectMilestone(nextId, ms[i].id, false))
            && (!milestoneQueryFailed ==>
                  && SortedByOrder(ms)
                  && forall m :: multiset(ms)[m] == if m.launchPackId == packId then multiset(milestones)[m] else 0)
  {
    var ms := Seeds(milestones, body.value.launchPackId, milestoneQueryFailed);
    StartCreatesProject(packs, milestones, projects, pms, reviews, portfolios, nextId, session, body,
                        generateSlug, stamp, now, milestoneQueryFailed, milestoneInsertError);
    RowsOfNewProject(projects, pms, reviews, portfolios, nextId, ms);
  }
}
