/** The rate-limit test scenarios stated over the model: a course with one
    limit of two uses per five seconds, a student's own conversation still
    with the chatbot, and two bot replies inside the window. */
module Scenarios {
  import opened Schema
  import RateLimit
  import MessageRoutes
  import ConversationRoutes
  import ParticipatesIn

  /** Two distinct rows of the table that are bot replies in `convId`
      strictly inside the last `span` seconds. */
  predicate TwoRepliesWithin(msgs: seq<Message>, convId: nat, now: int, span: int, i: nat, j: nat)
  {
    && i < |msgs| && j < |msgs| && i != j
    && msgs[i].mtype == BotMessage && msgs[i].conversationId == convId && msgs[i].timestamp > now - span
    && msgs[j].mtype == BotMessage && msgs[j].conversationId == convId && msgs[j].timestamp > now - span
  }

  /** After two bot replies within five seconds the third message post and
      the third AI-response request are both refused with 429; both handlers
      then leave the tables as they were. */
  lemma ThirdRequestRefused(limits: seq<Limit>, convs: map<nat, Conversation>, msgs: seq<Message>,
                            convId: nat, email: Email, role: Role, now: int, limitId: nat, i: nat, j: nat)
    requires convId in convs && convs[convId].initiatedBy == email && convs[convId].state == Chatbot
    requires limits == [Limit(limitId, convs[convId].courseId, 2, 5)]
    requires TwoRepliesWithin(msgs, convId, now, 5, i, j)
    ensures RateLimit.LimitReached(limits, convs, msgs, email, convs[convId].courseId, now)
    ensures MessageRoutes.PostMessageGuard(Some(convs[convId]), email, role,
              RateLimit.LimitReached(limits, convs, msgs, email, convs[convId].courseId, now)) == TOO_MANY_REQUESTS
    ensures ConversationRoutes.AiGuardStatus(convs, msgs, limits, convId, email, now) == TOO_MANY_REQUESTS
  {
    var course := convs[convId].courseId;
    var ids := RateLimit.OwnConversationIds(convs, email, course);
    assert convId in ids;
    var rows := RateLimit.CountedRows(msgs, ids, now - 5);
    assert {i, j} <= rows;
    assert |{i, j}| == 2;
    ParticipatesIn.SubsetSize({i, j}, rows);
    RateLimit.LimitReachedIff(limits, convs, msgs, email, course, now);
    assert limits[0] in limits;
  }

  /** Once every bot reply of the user's conversations in the course is at
      least `span` seconds old, a single limit of that span with a positive
      maximum no longer blocks: the second test's posts after the wait. */
  lemma WaitingFreesLimit(limits: seq<Limit>, convs: map<nat, Conversation>, msgs: seq<Message>,
                          email: Email, course: int, now: int, limitId: nat, max: int, span: int)
    requires max > 0
    requires limits == [Limit(limitId, course, max, span)]
    requires forall k :: 0 <= k < |msgs| && msgs[k].mtype == BotMessage
               && msgs[k].conversationId in RateLimit.OwnConversationIds(convs, email, course)
               ==> msgs[k].timestamp <= now - span
    ensures !RateLimit.LimitReached(limits, convs, msgs, email, course, now)
  {
    var ids := RateLimit.OwnConversationIds(convs, email, course);
    assert RateLimit.CountedRows(msgs, ids, now - span) == {};
    RateLimit.LimitReachedIff(limits, convs, msgs, email, course, now);
  }
}
