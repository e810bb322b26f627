/** The first package's database management commands: creating a rate limit
    from a period name, initialising the tables, and filling an empty
    database with mock courses and users. Argument parsing is reduced to the
    values it yields; the printed messages are left out. */
module DbCli {
  import opened Schema
  import Models

  /** The `--per` choices of `create limit`, longest period first. */
  const PER_CHOICES: seq<string> := ["week", "day", "hour", "minute", "ten-seconds", "five-seconds", "second"]

  /** `word_to_seconds`: the length in seconds of a period name. */
  function Seconds(per: string): (r: Option<nat>)
    ensures r.Some? <==> per in PER_CHOICES
    ensures r.Some? ==> r.value > 0
  {
    if per == "second" then Some(1)
    else if per == "five-seconds" then Some(5)
    else if per == "ten-seconds" then Some(10)
    else if per == "minute" then Some(60)
    else if per == "hour" then Some(60 * 60)
    else if per == "day" then Some(24 * 60 * 60)
    else if per == "week" then Some(7 * 24 * 60 * 60)
    else None
  }

  /** The choices are listed from the longest period to the shortest, so no
      two name the same span. */
  lemma SecondsDecreaseAlongChoices(i: nat, j: nat)
    requires i < j < |PER_CHOICES|
    ensures Seconds(PER_CHOICES[i]).value > Seconds(PER_CHOICES[j]).value
  {
  }

  /** Each period is a whole number of the next shorter one that divides
      it: a week of days, a day of hours, an hour of minutes, a minute of
      ten-second spans, and so on down to seconds. */
  lemma PeriodsNest()
    ensures Seconds("week").value == 7 * Seconds("day").value
    ensures Seconds("day").value == 24 * Seconds("hour").value
    ensures Seconds("hour").value == 60 * Seconds("minute").value
    ensures Seconds("minute").value == 6 * Seconds("ten-seconds").value
    ensures Seconds("ten-seconds").value == 2 * Seconds("five-seconds").value
    ensures Seconds("five-seconds").value == 5 * Seconds("second").value
  {
  }

  /** `create limit`: a period outside the choices is refused before the
      database is touched; otherwise a limit row with the given course and
      number of uses and the period's length is appended under a new id. */
  method CreateLimit(db: Database, course: int, numberOfUses: int, per: string) returns (r: Result<Limit>)
    requires db.Valid()
    modifies db`limits, db`nextId
    ensures db.Valid()
    ensures r.Ok? <==> per in PER_CHOICES
    ensures r.Ok? ==>
      && r.value == Limit(old(db.nextId), course, numberOfUses, Seconds(per).value)
      && db.limits == old(db.limits) + [r.value] && db.nextId == old(db.nextId) + 1
    ensures r.Err? ==> db.limits == old(db.limits) && db.nextId == old(db.nextId)
  {
    var seconds := Seconds(per);
    if seconds.None? {
      return Err("invalid choice: '" + per + "'");
    }
    var limit := Limit(db.nextId, course, numberOfUses, seconds.value);
    db.limits := db.limits + [limit];
    db.nextId := db.nextId + 1;
    r := Ok(limit);
  }

  /** What `initialize` does to the tables. */
  datatype InitAction = Create | Recreate | Keep

  /** No tables: create them; tables and `--force`: drop and recreate them;
      otherwise leave them alone. */
  function InitActionFor(tablesExist: bool, force: bool): (a: InitAction)
    ensures a == Keep <==> tablesExist && !force
    ensures a == Create <==> !tablesExist
  {
    if !tablesExist then Create
    else if force then Recreate
    else Keep
  }

  /** Every table exists and is empty, and the id sequences start over. */
  predicate Cleared(db: Database)
    reads db
  {
    && db.tablesExist && db.nextId == 1
    && db.courses == map[] && db.users == {} && db.participations == map[]
    && db.conversations == map[] && db.messages == [] && db.references == []
    && db.limits == [] && db.documents == map[] && db.segments == map[]
    && db.embeddings == [] && db.consentForms == [] && db.consents == {}
  }

  /** A cleared database meets the table invariants. */
  lemma ClearedIsValid(db: Database)
    requires Cleared(db)
    ensures db.Valid() && db.UsersExist()
  {
  }

  method Clear(db: Database)
    modifies db
    ensures Cleared(db)
  {
    db.tablesExist := true;
    db.courses, db.users, db.participations := map[], {}, map[];
    db.conversations, db.messages, db.references := map[], [], [];
    db.limits, db.documents, db.segments, db.embeddings := [], map[], map[], [];
    db.consentForms, db.consents := [], {};
    db.nextId := 1;
  }

  /** `initialize`: the tables exist afterwards; they are left as they were
      only when they existed and `--force` was not given. */
  method Initialize(db: Database, force: bool) returns (action: InitAction)
    modifies db
    ensures action == InitActionFor(old(db.tablesExist), force)
    ensures action == Keep ==> unchanged(db)
    ensures action != Keep ==> Cleared(db)
    ensures db.tablesExist
  {
    action := InitActionFor(db.tablesExist, force);
    if action != Keep {
      Clear(db);
    }
  }

  const MOCK_COURSES: seq<string> := ["CS010C", "CS061", "CS0111"]

  /** The three mock courses added to `courses` under ids `n` to `n + 2`. */
  function WithMockCourses(courses: map<nat, string>, n: nat): map<nat, string>
  {
    courses[n := MOCK_COURSES[0]][n + 1 := MOCK_COURSES[1]][n + 2 := MOCK_COURSES[2]]
  }
  const INSTRUCTOR_EMAIL: Email := "test001@ucr.edu"
  const STUDENT_EMAIL: Email := "test002@ucr.edu"
  const ASSISTANT_EMAIL: Email := "test003@ucr.edu"
  const MOCK_USERS: set<Email> := {INSTRUCTOR_EMAIL, STUDENT_EMAIL, ASSISTANT_EMAIL}

  /** The user enrolled in courses 1 to 3 with one role. */
  function EnrolledInMockCourses(p: map<(Email, int), Role>, email: Email, role: Role): map<(Email, int), Role>
  {
    p[(email, 1) := role][(email, 2) := role][(email, 3) := role]
  }

  predicate NotInMockCourses(p: map<(Email, int), Role>, email: Email)
  {
    forall c :: 1 <= c <= 3 ==> (email, c) !in p
  }

  /** Enrolling one user leaves the other users' enrolments alone. */
  lemma EnrollingOthers(p: map<(Email, int), Role>, email: Email, role: Role, other: Email)
    requires NotInMockCourses(p, other) && other != email
    ensures NotInMockCourses(EnrolledInMockCourses(p, email, role), other)
  {
  }

  /** The participations the mock data creates: the first user instructs,
      the second studies and the third assists in each of courses 1 to 3. */
  function MockParticipations(): map<(Email, int), Role>
  {
    var p := EnrolledInMockCourses(map[], INSTRUCTOR_EMAIL, INSTRUCTOR);
    var p := EnrolledInMockCourses(p, STUDENT_EMAIL, STUDENT);
    EnrolledInMockCourses(p, ASSISTANT_EMAIL, ASSISTANT)
  }

  /** One `add_user_to_course` call of the mock data: an existing user
      joins a course it is not in yet. */
  method EnrolExisting(db: Database, email: Email, course: int, role: Role, draws: seq<nat>)
    requires Models.ValidDraws(draws)
    requires db.Valid() && db.UsersExist()
    requires email in db.users && (email, course) !in db.participations
    modifies db`users, db`participations
    ensures db.Valid() && db.UsersExist()
    ensures db.users == old(db.users)
    ensures db.participations == old(db.participations)[(email, course) := role]
  {
    var r := Models.AddUserToCourse(db, email, course, role, draws);
  }

  /** The enrolments of the mock data, one user at a time. */
  method EnrolMockUser(db: Database, email: Email, role: Role, draws: seq<nat>)
    requires Models.ValidDraws(draws)
    requires db.Valid() && db.UsersExist()
    requires email in db.users
    requires NotInMockCourses(db.participations, email)
    modifies db`users, db`participations
    ensures db.Valid() && db.UsersExist()
    ensures db.users == old(db.users)
    ensures db.participations == EnrolledInMockCourses(old(db.participations), email, role)
  {
    EnrolExisting(db, email, 1, role, draws);
    EnrolExisting(db, email, 2, role, draws);
    EnrolExisting(db, email, 3, role, draws);
  }

  /** Every mock enrolment is of one of the three mock users in one of
      courses 1 to 3. */
  lemma MockEnrolmentsInRange()
    ensures forall k :: k in MockParticipations() ==>
      1 <= k.1 <= 3 && k.0 in MOCK_USERS
  {
  }

  /** The three mock users differ (in their seventh character). */
  lemma MockEmailsDistinct()
    ensures INSTRUCTOR_EMAIL != STUDENT_EMAIL && STUDENT_EMAIL != ASSISTANT_EMAIL && INSTRUCTOR_EMAIL != ASSISTANT_EMAIL
  {
    assert INSTRUCTOR_EMAIL[6] == '1' && STUDENT_EMAIL[6] == '2' && ASSISTANT_EMAIL[6] == '3';
  }

  method AddMockCourses(db: Database)
    requires db.Valid()
    modifies db`courses, db`nextId
    ensures db.Valid()
    ensures db.courses == WithMockCourses(old(db.courses), old(db.nextId))
    ensures db.nextId == old(db.nextId) + 3
  {
    var id := Models.AddNewCourse(db, MOCK_COURSES[0]);
    id := Models.AddNewCourse(db, MOCK_COURSES[1]);
    id := Models.AddNewCourse(db, MOCK_COURSES[2]);
  }

  method AddMockUsers(db: Database, draws1: seq<nat>, draws2: seq<nat>, draws3: seq<nat>)
    requires Models.ValidDraws(draws1) && Models.ValidDraws(draws2) && Models.ValidDraws(draws3)
    requires db.Valid() && db.UsersExist()
    modifies db`users
    ensures db.Valid() && db.UsersExist()
    ensures db.users == old(db.users) + MOCK_USERS
  {
    var pw := Models.AddNewUser(db, INSTRUCTOR_EMAIL, draws1);
    pw := Models.AddNewUser(db, STUDENT_EMAIL, draws2);
    pw := Models.AddNewUser(db, ASSISTANT_EMAIL, draws3);
  }

  /** The fifteen calls of `mock` on a database without courses, users
      or participations. */
  method FillMockData(db: Database, draws1: seq<nat>, draws2: seq<nat>, draws3: seq<nat>)
    requires db.Valid() && db.courses == map[] && db.users == {} && db.participations == map[]
    requires Models.ValidDraws(draws1) && Models.ValidDraws(draws2) && Models.ValidDraws(draws3)
    modifies db`courses, db`users, db`participations, db`nextId
    ensures db.Valid() && db.UsersExist()
    ensures db.courses == WithMockCourses(map[], old(db.nextId)) && db.nextId == old(db.nextId) + 3
    ensures db.users == MOCK_USERS && db.participations == MockParticipations()
  {
    MockEmailsDistinct();
    AddMockCourses(db);
    AddMockUsers(db, draws1, draws2, draws3);
    EnrolMockUser(db, INSTRUCTOR_EMAIL, INSTRUCTOR, draws1);
    EnrollingOthers(map[], INSTRUCTOR_EMAIL, INSTRUCTOR, STUDENT_EMAIL);
    EnrollingOthers(map[], INSTRUCTOR_EMAIL, INSTRUCTOR, ASSISTANT_EMAIL);
    EnrollingOthers(db.participations, STUDENT_EMAIL, STUDENT, ASSISTANT_EMAIL);
    EnrolMockUser(db, STUDENT_EMAIL, STUDENT, draws1);
    EnrolMockUser(db, ASSISTANT_EMAIL, ASSISTANT, draws1);
  }

  /** The body of `mock` after the tables are prepared: when there are
      neither courses nor users, three courses, three users and their
      enrolments are added; otherwise nothing changes. The enrolments name
      courses 1 to 3 whatever ids the courses received. */
  method AddMockData(db: Database, draws1: seq<nat>, draws2: seq<nat>, draws3: seq<nat>) returns (added: bool)
    requires db.Valid() && db.UsersExist()
    requires Models.ValidDraws(draws1) && Models.ValidDraws(draws2) && Models.ValidDraws(draws3)
    modifies db`courses, db`users, db`participations, db`nextId
    ensures db.Valid() && db.UsersExist()
    ensures added <==> old(db.courses) == map[] && old(db.users) == {}
    ensures added ==>
      && db.courses == WithMockCourses(map[], old(db.nextId))
      && db.nextId == old(db.nextId) + 3
      && db.users == MOCK_USERS
      && db.participations == MockParticipations()
    ensures !added ==> unchanged(db)
  {
    if !(db.courses == map[] && db.users == {}) {
      return false;
    }
    assert db.participations.Keys == {} by {
      assert forall k :: k in db.participations ==> k.0 in db.users;
    }
    FillMockData(db, draws1, draws2, draws3);
    added := true;
  }

  /** `mock`: prepare the tables as `initialize` would, then add the mock
      data to an empty database. On tables just created or recreated the
      courses receive ids 1 to 3, so every mock enrolment names a course
      that exists. */
  method Mock(db: Database, force: bool, draws1: seq<nat>, draws2: seq<nat>, draws3: seq<nat>) returns (added: bool)
    requires db.tablesExist ==> db.Valid() && db.UsersExist()
    requires Models.ValidDraws(draws1) && Models.ValidDraws(draws2) && Models.ValidDraws(draws3)
    modifies db
    ensures db.tablesExist && db.Valid() && db.UsersExist()
    ensures InitActionFor(old(db.tablesExist), force) != Keep ==>
      && added
      && db.courses == WithMockCourses(map[], 1)
      && (forall k :: k in db.participations ==> k.1 >= 0 && k.1 as nat in db.courses && k.0 in db.users)
    ensures InitActionFor(old(db.tablesExist), force) == Keep ==>
      (added <==> old(db.courses) == map[] && old(db.users) == {})
  {
    var action := Initialize(db, force);
    if action != Keep {
      ClearedIsValid(db);
    }
    added := AddMockData(db, draws1, draws2, draws3);
    if added {
      MockEnrolmentsInRange();
    }
  }
}
