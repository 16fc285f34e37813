/**
 * Sign-up (app/signup/page.tsx, `handleSignup`): after the auth service
 * creates an account, the page inserts the student's profile row, built from
 * the form with the skills field parsed as a comma-separated list.
 */
module Signup {
  import opened Common
  import opened Text
  import opened Store

  /** The sign-up form; every field is the text the user typed, except the chosen goal. */
  datatype SignupForm = SignupForm(email: string, name: string, college: string, year: string,
                                   goal: Goal, skills: string)

  /** What the auth service answers: an error, or an account whose user may be absent. */
  datatype AuthOutcome = AuthFailed(message: string) | SignedUp(user: Option<Id>)

  const Dashboard: string := "/dashboard"

  /** `.map((s) => s.trim())` */
  function TrimEach(parts: seq<string>): (r: seq<string>)
    ensures |r| == |parts|
    ensures forall i | 0 <= i < |r| :: r[i] == Trim(parts[i])
  {
    if parts == [] then [] else [Trim(parts[0])] + TrimEach(parts[1..])
  }

  /** `.filter(Boolean)` on strings: the non-empty ones, in order. */
  function DropEmpty(parts: seq<string>): (r: seq<string>)
    ensures |r| <= |parts|
    ensures forall i | 0 <= i < |r| :: r[i] != [] && r[i] in parts
    ensures forall p | p in parts && p != [] :: p in r
  {
    if parts == [] then []
    else if parts[0] == [] then DropEmpty(parts[1..])
    else [parts[0]] + DropEmpty(parts[1..])
  }

  /** A well-formed skill: non-empty, no surrounding white space, no comma. */
  predicate Skill(s: string)
  {
    s != [] && Trimmed(s) && ',' !in s
  }

  /** The skills field: the comma-separated pieces, trimmed, empty pieces dropped, order kept. */
  function ParseSkills(text: string): (skills: seq<string>)
    ensures forall i | 0 <= i < |skills| :: Skill(skills[i])
  {
    var pieces := Split(text, ',');
    SplitPiecesHaveNoSeparator(text, ',');
    var trimmed := TrimEach(pieces);
    forall i | 0 <= i < |trimmed| ensures ',' !in trimmed[i] {
      TrimIsSlice(pieces[i]);
    }
    DropEmpty(trimmed)
  }

  /** No piece of a split contains the separator. */
  lemma {:induction false} SplitPiecesHaveNoSeparator(s: string, sep: char)
    ensures forall i | 0 <= i < |Split(s, sep)| :: sep !in Split(s, sep)[i]
  {
    if s != [] {
      SplitPiecesHaveNoSeparator(s[1..], sep);
    }
  }

  /** Every character of a trimmed string comes from the original. */
  lemma TrimIsSlice(s: string)
    ensures forall c | c in Trim(s) :: c in s
  {
    var t := TrimStart(s);
    var r := TrimEnd(t);
    assert Trim(s) == r;
    forall c | c in r ensures c in s {
      var k :| 0 <= k < |r| && r[k] == c;
      assert t[k] == c;
      assert s[|s| - |t| + k] == c;
    }
  }

  lemma {:induction false} TrimEachConcat(a: seq<string>, b: seq<string>)
    ensures TrimEach(a + b) == TrimEach(a) + TrimEach(b)
  {
    if a != [] {
      assert (a + b)[1..] == a[1..] + b;
      assert TrimEach(a + b) == [Trim(a[0])] + TrimEach((a + b)[1..]);
      TrimEachConcat(a[1..], b);
    }
  }

  lemma {:induction false} DropEmptyConcat(a: seq<string>, b: seq<string>)
    ensures DropEmpty(a + b) == DropEmpty(a) + DropEmpty(b)
  {
    if a != [] {
      assert (a + b)[0] == a[0] && (a + b)[1..] == a[1..] + b;
      DropEmptyConcat(a[1..], b);
    } else {
      assert a + b == b;
    }
  }

  /** The text on each side of a comma is parsed independently: the skills of the whole keep their order. */
  lemma ParseSkillsAroundComma(a: string, b: string)
    ensures ParseSkills(a + "," + b) == ParseSkills(a) + ParseSkills(b)
  {
    SplitAround(a, ',', b);
    TrimEachConcat(Split(a, ','), Split(b, ','));
    DropEmptyConcat(TrimEach(Split(a, ',')), TrimEach(Split(b, ',')));
  }

  /** An empty or blank field gives no skills. */
  lemma BlankFieldHasNoSkills(text: string)
    requires forall i | 0 <= i < |text| :: IsSpace(text[i])
    ensures ParseSkills(text) == []
  {
    SplitWithoutSeparator(text, ',');
    assert Trim(text) == [];
  }

  lemma {:induction false} TrimEachOfTrimmed(parts: seq<string>)
    requires forall i | 0 <= i < |parts| :: Trimmed(parts[i])
    ensures TrimEach(parts) == parts
  {
    if parts != [] {
      TrimOfTrimmed(parts[0]);
      TrimEachOfTrimmed(parts[1..]);
    }
  }

  lemma {:induction false} DropEmptyOfNonEmpty(parts: seq<string>)
    requires forall i | 0 <= i < |parts| :: parts[i] != []
    ensures DropEmpty(parts) == parts
  {
    if parts != [] {
      DropEmptyOfNonEmpty(parts[1..]);
    }
  }

  /** Writing well-formed skills joined by commas into the field parses back to exactly those skills. */
  lemma ParseSkillsOfJoin(skills: seq<string>)
    requires forall i | 0 <= i < |skills| :: Skill(skills[i])
    ensures ParseSkills(Join(skills, ",")) == skills
  {
    if skills == [] {
      BlankFieldHasNoSkills([]);
    } else {
      SplitJoin(skills, ',');
      TrimEachOfTrimmed(skills);
      DropEmptyOfNonEmpty(skills);
    }
  }

  /**
   * The profile row for the auth user `id`: always a student; an empty
   * college is null; an empty year is null, otherwise `parseInt` of it (NaN
   * stored as null).
   */
  function ProfileRow(id: Id, form: SignupForm): (u: User)
    ensures u.id == id && u.email == form.email && u.name == form.name && u.goal == form.goal
    ensures u.role == Student
    ensures u.college == if form.college == [] then None else Some(form.college)
    ensures u.year == if form.year == [] then None else ParseInt(form.year)
    ensures u.skills == ParseSkills(form.skills)
  {
    User(id, form.email, form.name, if form.college == [] then None else Some(form.college),
         if form.year == [] then None else ParseInt(form.year), form.goal, ParseSkills(form.skills),
         Student, None)
  }

  /** A year the user typed as an integer is stored as that integer. */
  lemma YearRoundTrip(id: Id, form: SignupForm, year: int)
    requires form.year == IntToString(year)
    ensures ProfileRow(id, form).year == Some(year)
  {
    ParseIntOfIntToString(year);
  }

  /** The sign-up page: the loading flag and where it has navigated. */
  class Page {
    var loading: bool
    var navigations: seq<string>

    constructor ()
      ensures !loading && navigations == []
    {
      loading := false;
      navigations := [];
    }

    /**
     * `handleSignup`. A profile row is inserted only when the account was
     * created with a user, and appears only when the insert reports no error
     * (`profileInsertError`). The page moves to the dashboard unless some
     * step failed, even when no user came back.
     */
    method HandleSignup(db: Db, form: SignupForm, outcome: AuthOutcome, profileInsertError: bool)
      modifies this, db
      ensures !loading
      ensures db.users == if outcome.SignedUp? && outcome.user.Some? && !profileInsertError
                          then old(db.users) + [ProfileRow(outcome.user.value, form)]
                          else old(db.users)
      ensures db.launchPacks == old(db.launchPacks) && db.milestones == old(db.milestones)
      ensures db.projects == old(db.projects) && db.projectMilestones == old(db.projectMilestones)
      ensures db.reviews == old(db.reviews) && db.portfolios == old(db.portfolios) && db.nextId == old(db.nextId)
      ensures navigations == old(navigations)
                             + if outcome.SignedUp? && (outcome.user.None? || !profileInsertError)
                               then [Dashboard] else []
    {
      loading := true;
      if outcome.SignedUp? {
        var inserted := true;
        if outcome.user.Some? {
          var row := ProfileRow(outcome.user.value, form);
          if profileInsertError {
            inserted := false;
          } else {
            db.users := db.users + [row];
          }
        }
        if inserted {
          navigations := navigations + [Dashboard];
        }
      }
      loading := false;
    }
  }
}
