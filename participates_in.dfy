/** The instructor's participant management in the second package: adding a
    batch of emails to a course with one role, the message flashed afterwards,
    and removing a participant. */
module ParticipatesIn {
  import opened Schema

  /** The request's `email` field is either one address or a list of them. */
  datatype EmailField = Single(email: Email) | Many(emails: seq<Email>)

  /** A single address becomes a one-element list. */
  function Normalize(field: EmailField): (emails: seq<Email>)
    ensures field.Single? ==> emails == [field.email]
    ensures field.Many? ==> emails == field.emails
  {
    match field
    case Single(e) => [e]
    case Many(es) => es
  }

  /** The participation and user tables together with the set of emails added
      so far. */
  datatype Roster = Roster(participations: map<(Email, int), Role>, users: set<Email>, added: set<Email>)

  /** One iteration of the loop: an email already in the course (in any role)
      is skipped; otherwise its user row is created when missing and it joins
      the course with the requested role. */
  function AddOne(r: Roster, email: Email, course: int, role: Role): Roster
  {
    if (email, course) in r.participations then r
    else Roster(r.participations[(email, course) := role], r.users + {email}, r.added + {email})
  }

  /** The whole loop over the emails, in order. */
  function AddAll(r: Roster, emails: seq<Email>, course: int, role: Role): Roster
  {
    if |emails| == 0 then r
    else AddOne(AddAll(r, emails[..|emails| - 1], course, role), emails[|emails| - 1], course, role)
  }

  /** What the loop leaves behind, stated without the loop: exactly the listed
      emails that were not in the course are added, with the requested role
      and a user row each; rows already present are untouched; and afterwards
      every listed email participates in the course. Keying the table by
      (email, course) keeps one row per user and course. */
  lemma {:induction false} AddAllSpec(p: map<(Email, int), Role>, u: set<Email>, emails: seq<Email>, course: int, role: Role)
    ensures var r := AddAll(Roster(p, u, {}), emails, course, role);
      && r.added == (set e | e in emails && (e, course) !in p)
      && r.users == u + r.added
      && r.participations.Keys == p.Keys + (set e | e in r.added :: (e, course))
      && (forall k :: k in p ==> k in r.participations && r.participations[k] == p[k])
      && (forall e :: e in r.added ==> r.participations[(e, course)] == role)
      && (forall e :: e in emails ==> (e, course) in r.participations)
  {
    if |emails| > 0 {
      var init := emails[..|emails| - 1];
      var last := emails[|emails| - 1];
      AddAllSpec(p, u, init, course, role);
      var before := AddAll(Roster(p, u, {}), init, course, role);
      assert emails == init + [last];
      assert forall e :: e in emails <==> e in init || e == last;
      if (last, course) in before.participations {
        assert last !in (set e | e in emails && (e, course) !in p) - before.added by {
          if (last, course) !in p {
            assert (last, course) in (set e | e in before.added :: (e, course));
          }
        }
      }
    }
  }

  /** `post_participates_in`'s loop: adds the participations and users and
      collects the emails it added. */
  method AddParticipants(db: Database, field: EmailField, course: int, role: Role) returns (added: set<Email>)
    modifies db`participations, db`users
    ensures Roster(db.participations, db.users, added)
         == AddAll(Roster(old(db.participations), old(db.users), {}), Normalize(field), course, role)
  {
    var emails := Normalize(field);
    added := {};
    ghost var start := Roster(db.participations, db.users, {});
    for i := 0 to |emails|
      invariant Roster(db.participations, db.users, added) == AddAll(start, emails[..i], course, role)
    {
      assert emails[..i + 1][..i] == emails[..i];
      var email := emails[i];
      if (email, course) in db.participations {
        continue;
      }
      if email !in db.users {
        db.users := db.users + {email};
      }
      db.participations := db.participations[(email, course) := role];
      added := added + {email};
    }
    assert emails[..|emails|] == emails;
  }

  /** The message flashed after a bulk add. */
  datatype Flash =
    | AlreadyAdded(email: Email)
    | NoParticipants
    | AllAlreadyAdded
    | AddedCount(count: nat, role: Role)
    | AddedEach(emails: set<Email>, role: Role)

  /** The flash as written: the count message reports how many emails were
      submitted, skipped ones included. */
  function FlashAsWritten(emails: seq<Email>, added: set<Email>, role: Role): Flash
  {
    if |added| == 0 && |emails| == 1 then AlreadyAdded(emails[0])
    else if |emails| == 0 then NoParticipants
    else if |added| == 0 then AllAlreadyAdded
    else if |added| > 10 then AddedCount(|emails|, role)
    else AddedEach(added, role)
  }

  /** Whenever more than ten emails are added and at least one listed email
      was already in the course, the message as written reports more
      participants than were added: with eleven new emails and one existing
      participant it reports twelve. */
  lemma FlashOvercounts(p: map<(Email, int), Role>, u: set<Email>, emails: seq<Email>, course: int, role: Role, present: Email)
    requires present in emails && (present, course) in p
    requires |AddAll(Roster(p, u, {}), emails, course, role).added| > 10
    ensures var added := AddAll(Roster(p, u, {}), emails, course, role).added;
      FlashAsWritten(emails, added, role) == AddedCount(|emails|, role) && |emails| > |added|
  {
    var added := AddAll(Roster(p, u, {}), emails, course, role).added;
    AddAllSpec(p, u, emails, course, role);
    var listed := set e | e in emails;
    assert added <= listed - {present};
    SubsetSize(added, listed - {present});
    SetOfSeqSize(emails);
  }

  /** A subset is no larger than the set holding it. */
  lemma {:induction false} SubsetSize<T>(a: set<T>, b: set<T>)
    requires a <= b
    ensures |a| <= |b|
  {
    if a != {} {
      var x :| x in a;
      SubsetSize(a - {x}, b - {x});
    }
  }

  /** The flash with the count of emails actually added. */
  function FlashMessage(emails: seq<Email>, added: set<Email>, role: Role): (f: Flash)
    ensures f.AddedCount? ==> f.count == |added| && f.count > 10
    ensures f.AddedEach? ==> f.emails == added && 1 <= |added| <= 10
    ensures f == NoParticipants <==> |emails| == 0
    ensures f.AlreadyAdded? <==> |added| == 0 && |emails| == 1
    ensures f.AlreadyAdded? ==> f.email == emails[0]
  {
    if |added| == 0 && |emails| == 1 then AlreadyAdded(emails[0])
    else if |emails| == 0 then NoParticipants
    else if |added| == 0 then AllAlreadyAdded
    else if |added| > 10 then AddedCount(|added|, role)
    else AddedEach(added, role)
  }

  /** The flash as written and the corrected one differ only in the count
      message, and exactly when more than ten were added and the number
      submitted is not the number added. */
  lemma FlashAsWrittenAgrees(emails: seq<Email>, added: set<Email>, role: Role)
    ensures FlashAsWritten(emails, added, role) == FlashMessage(emails, added, role)
            <==> !(|added| > 10 && |emails| != |added| && |emails| > 0)
    ensures FlashAsWritten(emails, added, role) != FlashMessage(emails, added, role) ==>
      FlashAsWritten(emails, added, role) == AddedCount(|emails|, role)
  {
  }

  /** On a real bulk add, "all already added" is reported exactly when two
      or more emails were listed and every one was already in the course. */
  lemma FlashAllAlreadyAdded(p: map<(Email, int), Role>, u: set<Email>, emails: seq<Email>, course: int, role: Role)
    ensures var r := AddAll(Roster(p, u, {}), emails, course, role);
      var all := FlashMessage(emails, r.added, role) == AllAlreadyAdded;
      all <==> |emails| >= 2 && forall e :: e in emails ==> (e, course) in p
  {
    var r := AddAll(Roster(p, u, {}), emails, course, role);
    AddAllSpec(p, u, emails, course, role);
    if r.added != {} {
      var e :| e in r.added;
      assert e in emails && (e, course) !in p;
    }
  }

  /** The count message never reports more participants than were listed. */
  lemma FlashCountWithinList(p: map<(Email, int), Role>, u: set<Email>, emails: seq<Email>, course: int, role: Role)
    ensures var r := AddAll(Roster(p, u, {}), emails, course, role);
      var f := FlashMessage(emails, r.added, role);
      f.AddedCount? ==> f.count <= |emails|
  {
    var r := AddAll(Roster(p, u, {}), emails, course, role);
    AddAllSpec(p, u, emails, course, role);
    SubsetSize(r.added, set e | e in emails);
    SetOfSeqSize(emails);
  }

  /** A list has at least as many entries as distinct entries. */
  lemma {:induction false} SetOfSeqSize(s: seq<Email>)
    ensures |set e | e in s| <= |s|
  {
    if |s| > 0 {
      var init := s[..|s| - 1];
      SetOfSeqSize(init);
      assert (set e | e in s) == (set e | e in init) + {s[|s| - 1]};
    }
  }

  /** `post_participates_in` after the role check: add, then choose the
      flash as the handler writes it, with the submitted count. */
  method PostParticipatesIn(db: Database, field: EmailField, course: int, role: Role) returns (flash: Flash)
    modifies db`participations, db`users
    ensures var r := AddAll(Roster(old(db.participations), old(db.users), {}), Normalize(field), course, role);
      && db.participations == r.participations && db.users == r.users
      && flash == FlashAsWritten(Normalize(field), r.added, role)
  {
    var added := AddParticipants(db, field, course, role);
    flash := FlashAsWritten(Normalize(field), added, role);
  }

  /** `delete_participates_in`: 404 without a row, 403 for an instructor's
      row, otherwise 204 and the row is gone. Returns the status and the new
      table. */
  function Removal(p: map<(Email, int), Role>, email: Email, course: int): (r: (int, map<(Email, int), Role>))
    ensures r.0 == NOT_FOUND <==> (email, course) !in p
    ensures r.0 == FORBIDDEN <==> (email, course) in p && p[(email, course)] == INSTRUCTOR
    ensures r.0 in {NOT_FOUND, FORBIDDEN, NO_CONTENT}
    ensures r.0 == NO_CONTENT ==> r.1.Keys == p.Keys - {(email, course)} && |r.1| == |p| - 1
    ensures r.0 != NO_CONTENT ==> r.1 == p
    ensures forall k :: k in r.1 ==> k in p && r.1[k] == p[k]
  {
    var key := (email, course);
    if key !in p then (NOT_FOUND, p)
    else if p[key] == INSTRUCTOR then (FORBIDDEN, p)
    else (NO_CONTENT, p - {key})
  }

  /** No removal ever takes an instructor out of a course. */
  lemma InstructorsStay(p: map<(Email, int), Role>, email: Email, course: int, k: (Email, int))
    requires k in p && p[k] == INSTRUCTOR
    ensures k in Removal(p, email, course).1
  {
  }

  method DeleteParticipatesIn(db: Database, course: int, email: Email) returns (status: int)
    modifies db`participations
    ensures (status, db.participations) == Removal(old(db.participations), email, course)
  {
    var key := (email, course);
    if key !in db.participations {
      return NOT_FOUND;
    }
    if db.participations[key] == INSTRUCTOR {
      return FORBIDDEN;
    }
    db.participations := db.participations - {key};
    status := NO_CONTENT;
  }
}
