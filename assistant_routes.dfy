/** The assistant pages of the first package: the dashboard listing the
    conversations redirected to the assistant's courses (and filling in their
    missing summaries), and sending an assistant message into a
    conversation. The summary generator is a parameter. */
module AssistantRoutes {
  import opened Schema
  import Text
  import MessageRoutes

  /** The courses in which the user is an assistant. */
  function AssistantCourses(p: map<(Email, int), Role>, email: Email): set<int>
  {
    set k | k in p && k.0 == email && p[k] == ASSISTANT :: k.1
  }

  predicate InCourses(c: Conversation, courses: set<int>, state: ConversationState)
  {
    c.courseId in courses && c.state == state
  }

  function ConversationsIn(convs: map<nat, Conversation>, courses: set<int>, state: ConversationState): set<nat>
  {
    set id | id in convs && InCourses(convs[id], courses, state)
  }

  /** `not conversation.summary`: no summary, or an empty one. */
  predicate NeedsSummary(c: Conversation)
  {
    c.summary.None? || c.summary.value == ""
  }

  /** The conversations table once every listed conversation lacking a
      summary has been given one. */
  function WithSummaries(convs: map<nat, Conversation>, ids: set<nat>, summarize: nat -> string): (r: map<nat, Conversation>)
    ensures r.Keys == convs.Keys
  {
    map id | id in convs ::
      if id in ids && NeedsSummary(convs[id]) then convs[id].(summary := Some(summarize(id))) else convs[id]
  }

  /** Only the listed conversations lacking a summary change, and only in
      their summary; an existing summary is kept. */
  lemma WithSummariesSpec(convs: map<nat, Conversation>, ids: set<nat>, summarize: nat -> string, id: nat)
    requires id in convs
    ensures var r := WithSummaries(convs, ids, summarize);
      && r[id].(summary := convs[id].summary) == convs[id]
      && (r[id] != convs[id] ==> id in ids && NeedsSummary(convs[id]))
      && (id in ids && NeedsSummary(convs[id]) ==> r[id].summary == Some(summarize(id)))
  {
  }

  /** With a generator that never answers with an empty text, filling is
      done once: a second visit of the dashboard regenerates nothing. */
  lemma WithSummariesIdempotent(convs: map<nat, Conversation>, ids: set<nat>, summarize: nat -> string)
    requires forall id :: id in ids ==> summarize(id) != ""
    ensures WithSummaries(WithSummaries(convs, ids, summarize), ids, summarize) == WithSummaries(convs, ids, summarize)
  {
    var once := WithSummaries(convs, ids, summarize);
    forall id | id in once
      ensures WithSummaries(once, ids, summarize)[id] == once[id]
    {
      if id in ids && NeedsSummary(convs[id]) {
        assert once[id].summary == Some(summarize(id));
      }
    }
  }

  /** Filling one more conversation extends the filled set by it. */
  lemma WithSummariesStep(convs: map<nat, Conversation>, done: set<nat>, summarize: nat -> string, id: nat)
    requires id in convs && id !in done
    ensures var cur := WithSummaries(convs, done, summarize);
      WithSummaries(convs, done + {id}, summarize)
        == if NeedsSummary(cur[id]) then cur[id := cur[id].(summary := Some(summarize(id)))] else cur
  {
  }

  /** The summary loop of the dashboard: every listed conversation without a
      summary gets the generator's answer for it. */
  method FillSummaries(db: Database, ongoing: set<nat>, summarize: nat -> string)
    requires ongoing <= db.conversations.Keys
    modifies db`conversations
    ensures db.conversations == WithSummaries(old(db.conversations), ongoing, summarize)
  {
    ghost var before := db.conversations;
    var todo := ongoing;
    ghost var done: set<nat> := {};
    assert before == WithSummaries(before, {}, summarize);
    while todo != {}
      invariant todo !! done && todo + done == ongoing
      invariant db.conversations == WithSummaries(before, done, summarize)
      decreases |todo|
    {
      var id :| id in todo;
      WithSummariesStep(before, done, summarize, id);
      if NeedsSummary(db.conversations[id]) {
        db.conversations := db.conversations[id := db.conversations[id].(summary := Some(summarize(id)))];
      }
      todo := todo - {id};
      done := done + {id};
    }
  }

  /** What the dashboard shows. */
  datatype Dashboard = Dashboard(ongoing: set<nat>, resolved: set<nat>, courseNames: map<int, string>)

  /** The names of the listed courses that exist, keyed by course id. */
  function CourseNames(courses: map<nat, string>, ids: set<int>): (names: map<int, string>)
    ensures forall c :: c in names <==> c in ids && c >= 0 && c as nat in courses
    ensures forall c :: c in names ==> names[c] == courses[c as nat]
  {
    map c | c in ids && c >= 0 && c as nat in courses :: courses[c as nat]
  }

  /** The loop over the course rows whose id is listed, recording each name. */
  method CollectCourseNames(courses: map<nat, string>, ids: set<int>) returns (names: map<int, string>)
    ensures names == CourseNames(courses, ids)
  {
    names := map[];
    var todo := courses.Keys;
    ghost var done: set<nat> := {};
    while todo != {}
      invariant todo !! done && todo + done == courses.Keys
      invariant names == map c | c in ids && c >= 0 && c as nat in done :: courses[c as nat]
      decreases |todo|
    {
      var c :| c in todo;
      if c as int in ids {
        names := names[c as int := courses[c]];
      }
      todo := todo - {c};
      done := done + {c};
    }
  }

  /** `assistant_dashboard`: a user who assists in no course is turned away
      (`None`); otherwise the redirected and resolved conversations of the
      assistant's courses are listed, redirected ones missing a summary get
      one, and the names of those courses are looked up. */
  method AssistantDashboard(db: Database, email: Email, summarize: nat -> string) returns (r: Option<Dashboard>)
    modifies db`conversations
    ensures var courses := AssistantCourses(old(db.participations), email);
      && (courses == {} ==> r.None? && db.conversations == old(db.conversations))
      && (courses != {} ==>
            var ongoing := ConversationsIn(old(db.conversations), courses, Redirected);
            && db.conversations == WithSummaries(old(db.conversations), ongoing, summarize)
            && r == Some(Dashboard(ongoing, ConversationsIn(old(db.conversations), courses, Resolved),
                                   CourseNames(db.courses, courses))))
  {
    var courses := AssistantCourses(db.participations, email);
    if courses == {} {
      return None;
    }
    var ongoing := ConversationsIn(db.conversations, courses, Redirected);
    var resolved := ConversationsIn(db.conversations, courses, Resolved);
    FillSummaries(db, ongoing, summarize);
    var names := CollectCourseNames(db.courses, courses);
    r := Some(Dashboard(ongoing, resolved, names));
  }

  /** The dashboard lists only conversations of courses the user assists in,
      and never the same conversation as both ongoing and resolved. */
  lemma DashboardScoped(convs: map<nat, Conversation>, p: map<(Email, int), Role>, email: Email, id: nat)
    requires id in ConversationsIn(convs, AssistantCourses(p, email), Redirected)
          || id in ConversationsIn(convs, AssistantCourses(p, email), Resolved)
    ensures (email, convs[id].courseId) in p && p[(email, convs[id].courseId)] == ASSISTANT
    ensures !(id in ConversationsIn(convs, AssistantCourses(p, email), Redirected)
              && id in ConversationsIn(convs, AssistantCourses(p, email), Resolved))
  {
    var k :| k in p && k.0 == email && p[k] == ASSISTANT && k.1 == convs[id].courseId;
    assert k == (email, convs[id].courseId);
  }

  /** The guard cascade of `assistant_send_message`: a missing conversation,
      a sender who is not an assistant of the conversation's course, and a
      blank message. */
  function SendGuard(conv: Option<Conversation>, p: map<(Email, int), Role>, email: Email, message: string): int
  {
    if conv.None? then NOT_FOUND
    else if !((email, conv.value.courseId) in p && p[(email, conv.value.courseId)] == ASSISTANT) then FORBIDDEN
    else if Text.IsBlank(message) then BAD_REQUEST
    else OK
  }

  /** A send is accepted exactly when the conversation exists, the sender
      assists in its course and the message has a non-space character; the
      conversation's state and initiator play no part. */
  lemma SendGuardSpec(conv: Option<Conversation>, p: map<(Email, int), Role>, email: Email, message: string)
    ensures var s := SendGuard(conv, p, email, message);
      && (s == OK <==>
            && conv.Some?
            && (email, conv.value.courseId) in p && p[(email, conv.value.courseId)] == ASSISTANT
            && exists k :: 0 <= k < |message| && !Text.IsSpace(message[k]))
      && s in {OK, NOT_FOUND, FORBIDDEN, BAD_REQUEST}
    ensures conv.Some? ==>
      forall st: ConversationState, who: Email ::
        SendGuard(Some(conv.value.(state := st, initiatedBy := who)), p, email, message) == SendGuard(conv, p, email, message)
  {
  }

  /** Unlike `post_message`, this route lets an assistant of the course
      write into a resolved conversation. */
  lemma SendReachesResolved(conv: Conversation, p: map<(Email, int), Role>, email: Email, message: string, limitReached: bool)
    requires conv.state == Resolved
    requires (email, conv.courseId) in p && p[(email, conv.courseId)] == ASSISTANT
    requires !Text.IsBlank(message)
    ensures SendGuard(Some(conv), p, email, message) == OK
    ensures MessageRoutes.PostMessageGuard(Some(conv), email, ASSISTANT, limitReached) == FORBIDDEN
  {
  }

  method AssistantSendMessage(db: Database, convId: nat, email: Email, message: string, now: int) returns (status: int)
    requires db.Valid()
    modifies db`messages, db`nextId
    ensures db.Valid()
    ensures status == SendGuard(if convId in db.conversations then Some(db.conversations[convId]) else None,
                                db.participations, email, message)
    ensures status == OK ==>
      && db.messages == old(db.messages) + [Message(old(db.nextId), message, now, AssistantMessage, convId, email)]
      && db.nextId == old(db.nextId) + 1
    ensures status != OK ==> db.messages == old(db.messages) && db.nextId == old(db.nextId)
  {
    if convId !in db.conversations {
      return NOT_FOUND;
    }
    var course := db.conversations[convId].courseId;
    if !((email, course) in db.participations && db.participations[(email, course)] == ASSISTANT) {
      return FORBIDDEN;
    }
    if Text.IsBlank(message) {
      return BAD_REQUEST;
    }
    db.messages := db.messages + [Message(db.nextId, message, now, AssistantMessage, convId, email)];
    db.nextId := db.nextId + 1;
    status := OK;
  }
}
