/**
 * The hosted database as the routes see it: one map or sequence of rows per
 * table, plus the HTTP responses the routes answer with. Only the columns the
 * core reads or writes are kept.
 */
module Store {
  import opened Common

  /** Row ids and auth user ids. */
  type Id = nat

  datatype Role = Student | Mentor | Admin
  datatype Goal = Placement | Startup | Learning

  /** The values of `projects.status` that the core writes or tests. */
  datatype Status = InProgress | InReview | Verified | Published

  datatype User = User(
    id: Id, email: string, name: string, college: Option<string>, year: Option<int>,
    goal: Goal, skills: seq<string>, role: Role, reliabilityScore: Option<int>)

  datatype LaunchPack = LaunchPack(title: string)

  /** A template milestone of a launch pack. */
  datatype Milestone = Milestone(id: Id, launchPackId: Id, orderIndex: int)

  datatype Project = Project(
    ownerId: Id, launchPackId: Id, title: string, shortSummary: string, status: Status,
    progressPercent: int, startedAt: int, publicSlug: string)

  /** A project's own copy of one template milestone. */
  datatype ProjectMilestone = ProjectMilestone(projectId: Id, milestoneId: Id, completed: bool)

  /** A review; the checklist, rating and comments are nullable columns until a mentor fills them. */
  datatype Review = Review(
    projectId: Id, mentorId: Id, meetsBrief: Option<bool>, coreFunctional: Option<bool>,
    docsOk: Option<bool>, demoOk: Option<bool>, rating: Option<int>, comments: Option<string>,
    verified: bool)

  datatype Portfolio = Portfolio(
    projectId: Id, publicUrl: string, mentorComment: Option<string>, verifiedBadge: bool,
    reliabilityScoreSnapshot: int)

  /** The user of the auth session. */
  datatype AuthUser = AuthUser(id: Id, email: Option<string>)

  /** JSON bodies of the route responses. */
  datatype Body =
    | ErrorBody(error: string)
    | ProjectCreated(projectId: Id)
    | SuccessBody
    | PortfolioCreated(portfolio: Portfolio)
    | JsonBody(data: Json)
    | EmptyBody

  datatype Response = Response(status: int, body: Body)

  /**
   * The database. Tables the core looks up by id are maps; tables it scans in
   * storage order (users, template milestones) are sequences. The store hands
   * out ids of new rows from `nextId`.
   */
  class Db {
    var launchPacks: map<Id, LaunchPack>
    var milestones: seq<Milestone>
    var users: seq<User>
    var projects: map<Id, Project>
    var projectMilestones: map<Id, ProjectMilestone>
    var reviews: map<Id, Review>
    var portfolios: map<Id, Portfolio>
    var nextId: nat

    ghost predicate Valid()
      reads this
    {
      Consistent(projects, projectMilestones, reviews, portfolios, nextId)
    }

    constructor (launchPacks: map<Id, LaunchPack>, milestones: seq<Milestone>, users: seq<User>)
      ensures Valid()
      ensures this.launchPacks == launchPacks && this.milestones == milestones && this.users == users
      ensures projects == map[] && projectMilestones == map[] && reviews == map[] && portfolios == map[]
    {
      this.launchPacks := launchPacks;
      this.milestones := milestones;
      this.users := users;
      projects := map[];
      projectMilestones := map[];
      reviews := map[];
      portfolios := map[];
      nextId := 0;
    }
  }

  /** Issued ids lie below `nextId`, and every row that names a project names an existing one. */
  predicate Consistent(projects: map<Id, Project>, projectMilestones: map<Id, ProjectMilestone>,
                       reviews: map<Id, Review>, portfolios: map<Id, Portfolio>, nextId: nat)
  {
    && (forall k | k in projects :: k < nextId)
    && (forall k | k in projectMilestones :: k < nextId && projectMilestones[k].projectId in projects)
    && (forall k | k in reviews :: k < nextId && reviews[k].projectId in projects)
    && (forall k | k in portfolios :: k < nextId && portfolios[k].projectId in projects)
  }

  /** `.eq("id", id).single()` on `users`: the first row with that id. */
  function FindUser(users: seq<User>, id: Id): (r: Option<User>)
    ensures r.Some? ==> r.value in users && r.value.id == id
    ensures r.None? ==> forall i | 0 <= i < |users| :: users[i].id != id
  {
    if users == [] then None
    else if users[0].id == id then Some(users[0])
    else FindUser(users[1..], id)
  }
}
