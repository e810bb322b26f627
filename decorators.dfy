/** The access-control wrappers every course-scoped route runs first:
    `roles_required` of both packages and the second package's
    `consent_required`. The course id a route extracts, the logged-in user
    (absent when nobody is logged in) and the tables are their inputs; their
    outcome is to proceed, to refuse with a status, or to send the user to a
    consent form. */
module Decorators {
  import opened Schema

  datatype Decision = Proceed | Refuse(status: int) | ConsentRedirect(formId: nat)

  /** `not course_id`: a missing course id and course id 0 are both falsy. */
  predicate MissingCourse(courseId: Option<int>)
  {
    courseId.None? || courseId.value == 0
  }

  /** The participation row of the user in the course (`.first()` on the
      table's own key, so there is at most one). */
  function Participation(participations: map<(Email, int), Role>, email: Email, course: int): Option<Role>
  {
    if (email, course) in participations then Some(participations[(email, course)]) else None
  }

  /** The first package's `roles_required`: 400 without a course, 401 without
      a login, 403 without a participation whose role is allowed. Nothing is
      recorded about the role. */
  function UcrRolesRequired(allowed: set<Role>, courseId: Option<int>, user: Option<Email>,
                            participations: map<(Email, int), Role>): Decision
  {
    if MissingCourse(courseId) then Refuse(BAD_REQUEST)
    else if user.None? then Refuse(UNAUTHORIZED)
    else
      var record := Participation(participations, user.value, courseId.value);
      if record.None? || record.value !in allowed then Refuse(FORBIDDEN)
      else Proceed
  }

  /** The route runs exactly when a non-zero course id is given, someone is
      logged in, and that user participates in the course with an allowed
      role; each refusal is the first check that fails. */
  lemma UcrRolesRequiredSpec(allowed: set<Role>, courseId: Option<int>, user: Option<Email>,
                             participations: map<(Email, int), Role>)
    ensures var d := UcrRolesRequired(allowed, courseId, user, participations);
      && (d == Proceed <==>
            && !MissingCourse(courseId) && user.Some?
            && (user.value, courseId.value) in participations
            && participations[(user.value, courseId.value)] in allowed)
      && (d == Refuse(BAD_REQUEST) <==> MissingCourse(courseId))
      && (d == Refuse(UNAUTHORIZED) <==> !MissingCourse(courseId) && user.None?)
      && (d.Proceed? || d.Refuse?)
  {
  }

  /** The second package's `roles_required`: the same decision, and on
      proceeding the participation's role is what the route reads back. */
  function WluRolesRequired(allowed: set<Role>, courseId: Option<int>, user: Option<Email>,
                            participations: map<(Email, int), Role>): (r: (Decision, Option<Role>))
    ensures r.1.Some? <==> r.0 == Proceed
    ensures r.1.Some? ==> r.1.value in allowed
  {
    if MissingCourse(courseId) then (Refuse(BAD_REQUEST), None)
    else if user.None? then (Refuse(UNAUTHORIZED), None)
    else
      var record := Participation(participations, user.value, courseId.value);
      if record.None? || record.value !in allowed then (Refuse(FORBIDDEN), None)
      else (Proceed, record)
  }

  /** The two packages decide identically; the second also hands the route
      the user's role in the course. */
  lemma RolesRequiredAgree(allowed: set<Role>, courseId: Option<int>, user: Option<Email>,
                           participations: map<(Email, int), Role>)
    ensures WluRolesRequired(allowed, courseId, user, participations).0
         == UcrRolesRequired(allowed, courseId, user, participations)
    ensures WluRolesRequired(allowed, courseId, user, participations).0 == Proceed ==>
      WluRolesRequired(allowed, courseId, user, participations).1
        == Some(participations[(user.value, courseId.value)])
  {
  }

  /** Flask's per-request globals; `role` is set by the second package's
      `roles_required` and read by the routes behind it. */
  class RequestGlobals {
    var role: Option<Role>

    constructor ()
      ensures role == None
    {
      role := None;
    }
  }

  /** The second package's `roles_required` as it runs: decide, and record
      the role in the request globals when the route is to run. */
  method RunWluRolesRequired(g: RequestGlobals, allowed: set<Role>, courseId: Option<int>, user: Option<Email>,
                             participations: map<(Email, int), Role>) returns (d: Decision)
    modifies g
    ensures d == UcrRolesRequired(allowed, courseId, user, participations)
    ensures d == Proceed ==> g.role == Some(participations[(user.value, courseId.value)]) && g.role.value in allowed
    ensures d != Proceed ==> g.role == old(g.role)
  {
    var r := WluRolesRequired(allowed, courseId, user, participations);
    RolesRequiredAgree(allowed, courseId, user, participations);
    d := r.0;
    if d == Proceed {
      g.role := r.1;
    }
  }

  predicate Unconsented(f: ConsentForm, consents: set<(nat, Email)>, email: Email, course: int)
  {
    f.courseId == course && (f.id, email) !in consents
  }

  /** The consent-form query: the lowest id among the course's forms the user
      has not consented to (`ORDER BY id` then `.first()`). */
  function FirstUnconsented(forms: seq<ConsentForm>, consents: set<(nat, Email)>, email: Email, course: int): (r: Option<nat>)
    ensures r.None? <==> forall k :: 0 <= k < |forms| ==> !Unconsented(forms[k], consents, email, course)
    ensures r.Some? ==>
      && (exists k :: 0 <= k < |forms| && forms[k].id == r.value && Unconsented(forms[k], consents, email, course))
      && (forall k :: 0 <= k < |forms| && Unconsented(forms[k], consents, email, course) ==> r.value <= forms[k].id)
  {
    if forms == [] then None
    else
      var rest := FirstUnconsented(forms[1..], consents, email, course);
      assert forall k :: 1 <= k < |forms| ==> forms[k] == forms[1..][k - 1];
      if !Unconsented(forms[0], consents, email, course) then rest
      else if rest.Some? && rest.value < forms[0].id then rest
      else Some(forms[0].id)
  }

  /** The second package's `consent_required`: 400, 401, 403 without any
      participation (whatever its role), then a redirect to the first form
      still to sign, or proceed. */
  function ConsentRequired(courseId: Option<int>, user: Option<Email>, participations: map<(Email, int), Role>,
                           forms: seq<ConsentForm>, consents: set<(nat, Email)>): Decision
  {
    if MissingCourse(courseId) then Refuse(BAD_REQUEST)
    else if user.None? then Refuse(UNAUTHORIZED)
    else if Participation(participations, user.value, courseId.value).None? then Refuse(FORBIDDEN)
    else
      match FirstUnconsented(forms, consents, user.value, courseId.value)
      case None => Proceed
      case Some(id) => ConsentRedirect(id)
  }

  /** The route runs exactly when a logged-in participant of the course has
      consented to every form of it; a redirect names a form of the course the
      user has not consented to. */
  lemma ConsentRequiredSpec(courseId: Option<int>, user: Option<Email>, participations: map<(Email, int), Role>,
                            forms: seq<ConsentForm>, consents: set<(nat, Email)>)
    ensures var d := ConsentRequired(courseId, user, participations, forms, consents);
      && (d == Proceed <==>
            && !MissingCourse(courseId) && user.Some?
            && (user.value, courseId.value) in participations
            && forall f :: f in forms && f.courseId == courseId.value ==> (f.id, user.value) in consents)
      && (d.ConsentRedirect? ==>
            exists f :: f in forms && f.id == d.formId && f.courseId == courseId.value && (f.id, user.value) !in consents)
  {
    var d := ConsentRequired(courseId, user, participations, forms, consents);
    if d.ConsentRedirect? {
      var k :| 0 <= k < |forms| && forms[k].id == d.formId
               && Unconsented(forms[k], consents, user.value, courseId.value);
      assert forms[k] in forms;
    }
    if !MissingCourse(courseId) && user.Some? && (user.value, courseId.value) in participations
       && forall f :: f in forms && f.courseId == courseId.value ==> (f.id, user.value) in consents {
      assert forall k :: 0 <= k < |forms| ==> forms[k] in forms;
    }
  }

  /** Signing the form a redirect named moves the next redirect, if any, to
      a form with a larger id: a user is walked through the forms in id
      order and each form is asked for once. */
  lemma ConsentProgress(forms: seq<ConsentForm>, consents: set<(nat, Email)>, email: Email, course: int)
    requires FirstUnconsented(forms, consents, email, course).Some?
    ensures var first := FirstUnconsented(forms, consents, email, course).value;
      var next := FirstUnconsented(forms, consents + {(first, email)}, email, course);
      next.None? || next.value > first
  {
    var first := FirstUnconsented(forms, consents, email, course).value;
    var after := consents + {(first, email)};
    var next := FirstUnconsented(forms, after, email, course);
    if next.Some? {
      var k :| 0 <= k < |forms| && forms[k].id == next.value && Unconsented(forms[k], after, email, course);
      assert Unconsented(forms[k], consents, email, course);
    }
  }
}
