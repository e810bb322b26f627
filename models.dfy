/** The first package's table helpers: creating a user with a generated
    password, enrolling a user in a course, retiring a document and listing
    the stored paths of the active documents. */
module Models {
  import opened Schema

  predicate IsAlphanumeric(c: char)
  {
    'a' <= c <= 'z' || 'A' <= c <= 'Z' || '0' <= c <= '9'
  }

  /** Position `k` of `string.ascii_letters + string.digits`: the lower-case
      letters, then the upper-case letters, then the digits. */
  function AlphabetChar(k: nat): (c: char)
    requires k < ALPHABET_SIZE
    ensures IsAlphanumeric(c)
  {
    if k < 26 then ('a' as int + k) as char
    else if k < 52 then ('A' as int + (k - 26)) as char
    else ('0' as int + (k - 52)) as char
  }

  const ALPHABET_SIZE: nat := 62
  const PASSWORD_LENGTH: nat := 10

  /** Ten positions in the alphabet, one per `secrets.choice` call. */
  predicate ValidDraws(draws: seq<nat>)
  {
    |draws| == PASSWORD_LENGTH && forall k :: 0 <= k < |draws| ==> draws[k] < ALPHABET_SIZE
  }

  /** The generated password, given the positions `secrets.choice` picked in
      the alphabet. */
  function Password(draws: seq<nat>): (pw: string)
    requires ValidDraws(draws)
    ensures |pw| == PASSWORD_LENGTH
    ensures forall k :: 0 <= k < |pw| ==> IsAlphanumeric(pw[k]) && pw[k] == AlphabetChar(draws[k])
  {
    seq(PASSWORD_LENGTH, k requires 0 <= k < PASSWORD_LENGTH => AlphabetChar(draws[k]))
  }

  /** The alphabet is exactly the ASCII letters and digits: every
      alphanumeric character sits at one position. */
  lemma AlphabetIsAlphanumeric(c: char)
    requires IsAlphanumeric(c)
    ensures exists k :: 0 <= k < ALPHABET_SIZE && AlphabetChar(k) == c
  {
    var k := if 'a' <= c <= 'z' then c as int - 'a' as int
             else if 'A' <= c <= 'Z' then 26 + (c as int - 'A' as int)
             else 52 + (c as int - '0' as int);
    assert AlphabetChar(k) == c;
  }

  /** No character appears twice, so each draw picks a distinct character. */
  lemma AlphabetDistinct(i: nat, j: nat)
    requires i < ALPHABET_SIZE && j < ALPHABET_SIZE && i != j
    ensures AlphabetChar(i) != AlphabetChar(j)
  {
  }

  /** `add_new_user`: the user row is added (its password hash is not part
      of this model) and the generated password is returned. An existing
      email makes the insert fail and be rolled back. */
  method AddNewUser(db: Database, email: Email, draws: seq<nat>) returns (password: string)
    requires ValidDraws(draws)
    modifies db`users
    ensures password == Password(draws)
    ensures db.users == old(db.users) + {email}
  {
    password := Password(draws);
    if email !in db.users {
      db.users := db.users + {email};
    }
  }

  /** `add_new_course`: a course row under the next id. The upload folder
      its description mentions is not created by the code. */
  method AddNewCourse(db: Database, name: string) returns (id: nat)
    requires db.Valid()
    modifies db`courses, db`nextId
    ensures db.Valid()
    ensures id == old(db.nextId)
    ensures db.courses == old(db.courses)[id := name] && db.nextId == id + 1
  {
    id := db.nextId;
    db.courses := db.courses[id := name];
    db.nextId := db.nextId + 1;
  }

  /** `add_user_to_course` on the user and participation tables. A row is
      inserted only when no row with the same email, course and role exists;
      a row for the same email and course with another role makes that
      insert violate the (email, course) key, which raises after the user
      row has already been committed. */
  function Enrol(users: set<Email>, p: map<(Email, int), Role>, email: Email, course: int, role: Role)
    : (r: (set<Email>, Result<map<(Email, int), Role>>))
    ensures r.0 == users + {email}
    ensures r.1.Err? <==> (email, course) in p && p[(email, course)] != role
    ensures r.1.Ok? ==> r.1.value == p[(email, course) := role]
  {
    var key := (email, course);
    if key in p && p[key] == role then (users + {email}, Ok(p))
    else if key in p then (users + {email}, Err("duplicate key value violates unique constraint"))
    else (users + {email}, Ok(p[key := role]))
  }

  /** Enrolling twice with the same role is the same as enrolling once. */
  lemma EnrolIdempotent(users: set<Email>, p: map<(Email, int), Role>, email: Email, course: int, role: Role)
    requires Enrol(users, p, email, course, role).1.Ok?
    ensures var (u1, r1) := Enrol(users, p, email, course, role);
      Enrol(u1, r1.value, email, course, role) == (u1, r1)
  {
    var (u1, r1) := Enrol(users, p, email, course, role);
    assert r1.value[(email, course) := role] == r1.value;
  }

  /** Enrolment touches only the enrolled user's row in that course. */
  lemma EnrolKeepsOthers(users: set<Email>, p: map<(Email, int), Role>, email: Email, course: int, role: Role, k: (Email, int))
    requires k in p && k != (email, course)
    ensures var r := Enrol(users, p, email, course, role).1;
      r.Ok? ==> k in r.value && r.value[k] == p[k]
  {
  }

  method AddUserToCourse(db: Database, email: Email, course: int, role: Role, draws: seq<nat>) returns (r: Result<()>)
    requires ValidDraws(draws)
    modifies db`users, db`participations
    ensures var (users, table) := Enrol(old(db.users), old(db.participations), email, course, role);
      && db.users == users
      && (table.Ok? ==> r == Ok(()) && db.participations == table.value)
      && (table.Err? ==> r.Err? && db.participations == old(db.participations))
  {
    if email !in db.users {
      var _ := AddNewUser(db, email, draws);
    }
    var key := (email, course);
    if key in db.participations && db.participations[key] == role {
      return Ok(());
    }
    if key in db.participations {
      return Err("duplicate key value violates unique constraint");
    }
    db.participations := db.participations[key := role];
    r := Ok(());
  }

  /** `set_document_inactive`: the document stored at `path` has its flag
      cleared and nothing else changes; without one it is a no-op. The path
      is the documents' primary key in the first package's table definition,
      so at most one row matches. */
  function Deactivated(docs: map<nat, Document>, path: string): (r: map<nat, Document>)
    ensures r.Keys == docs.Keys
    ensures forall id :: id in docs ==> r[id].(isActive := docs[id].isActive) == docs[id]
    ensures forall id :: id in docs ==> (r[id] != docs[id] <==> docs[id].filePath == path && docs[id].isActive)
    ensures forall id :: id in docs && docs[id].filePath == path ==> !r[id].isActive
  {
    map id | id in docs :: if docs[id].filePath == path then docs[id].(isActive := false) else docs[id]
  }

  /** Retiring a path removes exactly its documents from the active ones. */
  lemma DeactivatedActive(docs: map<nat, Document>, path: string)
    ensures ActiveIds(Deactivated(docs, path)) == ActiveIds(docs) - (set id | id in docs && docs[id].filePath == path)
  {
  }

  method SetDocumentInactive(db: Database, path: string)
    modifies db`documents
    ensures db.documents == Deactivated(old(db.documents), path)
  {
    db.documents := map id | id in db.documents ::
      if db.documents[id].filePath == path then db.documents[id].(isActive := false) else db.documents[id];
  }

  function ActiveIds(docs: map<nat, Document>): set<nat>
  {
    set id | id in docs && docs[id].isActive
  }

  /** `get_active_documents`: one path per active document, in the order the
      rows are visited. */
  method GetActiveDocuments(db: Database) returns (paths: seq<string>)
    ensures |paths| == |ActiveIds(db.documents)|
    ensures forall p :: p in paths <==> exists id :: id in ActiveIds(db.documents) && db.documents[id].filePath == p
  {
    var rows := ActiveIds(db.documents);
    paths := [];
    ghost var visited: set<nat> := {};
    while rows != {}
      invariant rows !! visited && rows + visited == ActiveIds(db.documents)
      invariant |paths| == |visited|
      invariant forall p :: p in paths <==> exists id :: id in visited && db.documents[id].filePath == p
      decreases |rows|
    {
      var id :| id in rows;
      paths := paths + [db.documents[id].filePath];
      rows := rows - {id};
      visited := visited + {id};
    }
  }
}
