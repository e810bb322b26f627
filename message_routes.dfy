/** The message endpoints of the first package: posting a message into a
    conversation, reading a conversation's messages, and reading the sources
    a bot message was built from. The requester's email and course role are
    parameters, as is the clock. */
module MessageRoutes {
  import opened Schema
  import opened Sorting
  import RateLimit
  import opened ResponseGeneration
  import ConversationRoutes

  /** The guard cascade of `post_message`, in its order: a missing
      conversation, a resolved one, a poster who is neither the initiator nor
      an assistant of a redirected conversation, and the rate limit, which is
      consulted only while the conversation is with the chatbot. */
  function PostMessageGuard(conv: Option<Conversation>, email: Email, role: Role, limitReached: bool): int
  {
    if conv.None? then NOT_FOUND
    else if conv.value.state !in {Chatbot, Redirected} then FORBIDDEN
    else if !(conv.value.initiatedBy == email || (role == ASSISTANT && conv.value.state == Redirected)) then FORBIDDEN
    else if conv.value.state == Chatbot && limitReached then TOO_MANY_REQUESTS
    else OK
  }

  /** A post is accepted exactly when the conversation exists, is not
      resolved, the poster is its initiator or an assistant of a redirected
      conversation, and (with the chatbot only) no limit is reached. */
  lemma PostMessageGuardSpec(conv: Option<Conversation>, email: Email, role: Role, limitReached: bool)
    ensures var s := PostMessageGuard(conv, email, role, limitReached);
      && s in {OK, NOT_FOUND, FORBIDDEN, TOO_MANY_REQUESTS}
      && (s == OK <==>
            && conv.Some?
            && conv.value.state != Resolved
            && (conv.value.initiatedBy == email || (role == ASSISTANT && conv.value.state == Redirected))
            && !(conv.value.state == Chatbot && limitReached))
      && (conv.Some? && conv.value.state == Resolved ==> s == FORBIDDEN)
      && (s == TOO_MANY_REQUESTS ==> conv.Some? && conv.value.state == Chatbot && conv.value.initiatedBy == email)
    ensures conv.Some? && conv.value.state == Redirected ==>
      PostMessageGuard(conv, email, role, true) == PostMessageGuard(conv, email, role, false)
  {
  }

  /** The kind of a posted message: an assistant's when the poster's role is
      assistant, a student's otherwise; never a bot message. */
  function PostedType(role: Role): (t: MessageType)
    ensures t == AssistantMessage <==> role == ASSISTANT
    ensures t != BotMessage
  {
    if role == ASSISTANT then AssistantMessage else StudentMessage
  }

  /** The check `post_message` repeats after its commit can never fail: an
      accepted poster always passes the visibility predicate. */
  lemma PostRecheckNeverFires(conv: Conversation, email: Email, role: Role, limitReached: bool)
    requires PostMessageGuard(Some(conv), email, role, limitReached) == OK
    ensures InitiatedOrAssists(email, role, conv)
  {
  }

  function PostGuardOf(db: Database, convId: nat, email: Email, role: Role, now: int): int
    reads db
  {
    var conv := if convId in db.conversations then Some(db.conversations[convId]) else None;
    var reached := conv.Some? && RateLimit.LimitReached(db.limits, db.conversations, db.messages, email, conv.value.courseId, now);
    PostMessageGuard(conv, email, role, reached)
  }

  /** `post_message`: on acceptance exactly one message is appended, written
      by the poster at `now`, of the poster's kind; otherwise nothing changes. */
  method PostMessage(db: Database, convId: nat, body: string, email: Email, role: Role, now: int)
    returns (status: int)
    requires db.Valid()
    modifies db`messages, db`nextId
    ensures db.Valid()
    ensures status == old(PostGuardOf(db, convId, email, role, now))
    ensures status == OK ==>
      && db.messages == old(db.messages) + [Message(old(db.nextId), body, now, PostedType(role), convId, email)]
      && db.nextId == old(db.nextId) + 1
    ensures status != OK ==> db.messages == old(db.messages) && db.nextId == old(db.nextId)
  {
    if convId !in db.conversations {
      return NOT_FOUND;
    }
    var conv := db.conversations[convId];
    if conv.state !in {Chatbot, Redirected} {
      return FORBIDDEN;
    }
    if !(conv.initiatedBy == email || (role == ASSISTANT && conv.state == Redirected)) {
      return FORBIDDEN;
    }
    if conv.state == Chatbot {
      var usages := RateLimit.GetLimitUsages(db, email, conv.courseId, now);
      var reached := RateLimit.LimitUsageListReached(usages);
      if reached {
        return TOO_MANY_REQUESTS;
      }
    }
    db.messages := db.messages + [Message(db.nextId, body, now, PostedType(role), convId, email)];
    db.nextId := db.nextId + 1;
    status := OK;
  }

  /** Posting never spends a rate-limit use: the posted message is not a bot
      reply, so every usage of every user is what it was. */
  lemma PostSpendsNoUse(limits: seq<Limit>, convs: map<nat, Conversation>, msgs: seq<Message>,
                        id: nat, body: string, now: int, role: Role, convId: nat, poster: Email,
                        email: Email, course: int, at: int)
    ensures RateLimit.Usages(limits, convs, msgs + [Message(id, body, now, PostedType(role), convId, poster)], email, course, at)
         == RateLimit.Usages(limits, convs, msgs, email, course, at)
  {
    RateLimit.UsagesIgnoreOtherMessages(limits, convs, msgs, Message(id, body, now, PostedType(role), convId, poster), email, course, at);
  }

  /** Posting at the current time keeps the one-reply-per-student-message
      order of the conversation. */
  lemma PostKeepsReplyOrder(msgs: seq<Message>, id: nat, body: string, now: int, role: Role, convId: nat, poster: Email)
    requires ConversationRoutes.RepliesFollowStudents(msgs, convId)
    requires forall i :: 0 <= i < |msgs| && msgs[i].conversationId == convId ==> msgs[i].timestamp <= now
    ensures ConversationRoutes.RepliesFollowStudents(msgs + [Message(id, body, now, PostedType(role), convId, poster)], convId)
  {
    ConversationRoutes.AppendKeepsReplyOrder(msgs, Message(id, body, now, PostedType(role), convId, poster));
  }

  /** One entry of the message list. */
  datatype MessageView = MessageView(mtype: MessageType, body: string, id: nat)

  function ViewOf(m: Message): MessageView
  {
    MessageView(m.mtype, m.body, m.id)
  }

  function Views(ms: seq<Message>): (vs: seq<MessageView>)
    ensures |vs| == |ms|
    ensures forall k :: 0 <= k < |ms| ==> vs[k] == ViewOf(ms[k])
  {
    seq(|ms|, k requires 0 <= k < |ms| => ViewOf(ms[k]))
  }

  /** `get_messages`: 404 for a missing conversation, 403 for anyone the
      visibility predicate rejects; otherwise every message of the
      conversation, each once, oldest first. */
  method GetMessages(db: Database, convId: nat, email: Email, role: Role)
    returns (status: int, views: seq<MessageView>)
    ensures convId !in db.conversations ==> status == NOT_FOUND && views == []
    ensures convId in db.conversations ==>
      (status == OK <==> InitiatedOrAssists(email, role, db.conversations[convId]))
    ensures convId in db.conversations && status != OK ==> status == FORBIDDEN && views == []
    ensures status == OK ==>
      var ms := Chronological(db.messages, convId);
      && views == Views(ms)
      && multiset(ms) == multiset(ConversationMessages(db.messages, convId))
      && (forall i, j :: 0 <= i < j < |ms| ==> ms[i].timestamp <= ms[j].timestamp)
  {
    if convId !in db.conversations {
      return NOT_FOUND, [];
    }
    var conv := db.conversations[convId];
    if !InitiatedOrAssists(email, role, conv) {
      return FORBIDDEN, [];
    }
    var ms := Chronological(db.messages, convId);
    forall i, j | 0 <= i < j < |ms|
      ensures ms[i].timestamp <= ms[j].timestamp
    {
      assert Timestamp(ms[i]) <= Timestamp(ms[j]);
    }
    status, views := OK, Views(ms);
  }

  /** `session.get(Message, id)`: the message with that id, if any. */
  function FindMessage(msgs: seq<Message>, id: nat): (r: Option<Message>)
    ensures r.None? <==> forall k :: 0 <= k < |msgs| ==> msgs[k].id != id
    ensures r.Some? ==> r.value in msgs && r.value.id == id
  {
    if msgs == [] then None
    else if msgs[0].id == id then Some(msgs[0])
    else
      var r := FindMessage(msgs[1..], id);
      assert forall k :: 1 <= k < |msgs| ==> msgs[k] == msgs[1..][k - 1];
      r
  }

  /** One source of a message: a segment's text and its document's name. */
  datatype Source = Source(text: string, documentName: string)

  predicate Joinable(segmentId: nat, segments: map<nat, Segment>, documents: map<nat, Document>)
  {
    segmentId in segments && segments[segmentId].documentId in documents
  }

  function SourceOf(segmentId: nat, segments: map<nat, Segment>, documents: map<nat, Document>): Source
    requires Joinable(segmentId, segments, documents)
  {
    Source(segments[segmentId].text, documents[segments[segmentId].documentId].name)
  }

  /** The sources query: each reference of the message, taken through both
      inner joins (a reference whose segment or document is gone yields
      nothing), in reference-table order. */
  function SourcesOf(refs: seq<Reference>, messageId: nat, segments: map<nat, Segment>,
                     documents: map<nat, Document>): seq<Source>
  {
    if refs == [] then []
    else
      var init := refs[..|refs| - 1];
      var x := refs[|refs| - 1];
      assert refs == init + [x];
      var rest := SourcesOf(init, messageId, segments, documents);
      if x.messageId == messageId && Joinable(x.segmentId, segments, documents) then
        rest + [SourceOf(x.segmentId, segments, documents)]
      else rest
  }

  lemma SourcesOfSnoc(refs: seq<Reference>, x: Reference, messageId: nat, segments: map<nat, Segment>,
                      documents: map<nat, Document>)
    ensures SourcesOf(refs + [x], messageId, segments, documents)
         == SourcesOf(refs, messageId, segments, documents)
            + (if x.messageId == messageId && Joinable(x.segmentId, segments, documents)
               then [SourceOf(x.segmentId, segments, documents)] else [])
  {
    assert (refs + [x])[..|refs|] == refs;
  }

  /** Every source comes from a reference of the message whose segment and
      document both exist. */
  lemma {:induction false} SourcesAreReferenced(refs: seq<Reference>, messageId: nat, segments: map<nat, Segment>,
                                                documents: map<nat, Document>, s: Source)
    requires s in SourcesOf(refs, messageId, segments, documents)
    ensures exists x :: x in refs && x.messageId == messageId && Joinable(x.segmentId, segments, documents)
                        && s == SourceOf(x.segmentId, segments, documents)
  {
    var init := refs[..|refs| - 1];
    var x := refs[|refs| - 1];
    assert refs == init + [x];
    SourcesOfSnoc(init, x, messageId, segments, documents);
    if s in SourcesOf(init, messageId, segments, documents) {
      SourcesAreReferenced(init, messageId, segments, documents, s);
      var y :| y in init && y.messageId == messageId && Joinable(y.segmentId, segments, documents)
               && s == SourceOf(y.segmentId, segments, documents);
      assert y in refs;
    } else {
      assert x in refs;
    }
  }

  /** The source of each of a list of segments. */
  function SegmentSources(ids: seq<nat>, segments: map<nat, Segment>, documents: map<nat, Document>): (r: seq<Source>)
    requires forall k :: 0 <= k < |ids| ==> Joinable(ids[k], segments, documents)
    ensures |r| == |ids|
  {
    seq(|ids|, k requires 0 <= k < |ids| => SourceOf(ids[k], segments, documents))
  }

  /** The sources of a message whose references were all written by one
      reply are exactly that reply's sources, one per segment, in order, as
      long as every segment is still joined to its document. */
  lemma {:induction false} SourcesOfNewReply(refs: seq<Reference>, id: nat, sources: seq<nat>,
                                             segments: map<nat, Segment>, documents: map<nat, Document>)
    requires forall x :: x in refs ==> x.messageId != id
    requires forall k :: 0 <= k < |sources| ==> Joinable(sources[k], segments, documents)
    ensures SourcesOf(refs + ConversationRoutes.ReferencesFor(id, sources), id, segments, documents)
         == SegmentSources(sources, segments, documents)
  {
    if sources == [] {
      assert refs + ConversationRoutes.ReferencesFor(id, sources) == refs;
      SourcesOfNone(refs, id, segments, documents);
    } else {
      var init := sources[..|sources| - 1];
      var last := sources[|sources| - 1];
      SourcesOfNewReply(refs, id, init, segments, documents);
      var prefix := refs + ConversationRoutes.ReferencesFor(id, init);
      ReferencesForSnoc(id, init, last);
      assert sources == init + [last];
      assert refs + ConversationRoutes.ReferencesFor(id, sources) == prefix + [Reference(id, last)];
      SourcesOfSnoc(prefix, Reference(id, last), id, segments, documents);
      assert SegmentSources(sources, segments, documents)
          == SegmentSources(init, segments, documents) + [SourceOf(last, segments, documents)];
    }
  }

  lemma ReferencesForSnoc(id: nat, sources: seq<nat>, last: nat)
    ensures ConversationRoutes.ReferencesFor(id, sources + [last])
         == ConversationRoutes.ReferencesFor(id, sources) + [Reference(id, last)]
  {
  }

  /** A message without references has no sources. */
  lemma {:induction false} SourcesOfNone(refs: seq<Reference>, id: nat, segments: map<nat, Segment>,
                                         documents: map<nat, Document>)
    requires forall x :: x in refs ==> x.messageId != id
    ensures SourcesOf(refs, id, segments, documents) == []
  {
    if refs != [] {
      var init := refs[..|refs| - 1];
      assert forall x :: x in init ==> x in refs;
      SourcesOfNone(init, id, segments, documents);
    }
  }

  /** `get_message_sources`: 404 when no message has the id, 403 unless the
      requester wrote it, otherwise its sources. */
  method GetMessageSources(db: Database, messageId: nat, email: Email) returns (status: int, sources: seq<Source>)
    ensures var m := FindMessage(db.messages, messageId);
      && (m.None? ==> status == NOT_FOUND && sources == [])
      && (m.Some? && m.value.writtenBy != email ==> status == FORBIDDEN && sources == [])
      && (m.Some? && m.value.writtenBy == email ==>
            status == OK && sources == SourcesOf(db.references, messageId, db.segments, db.documents))
  {
    var m := FindMessage(db.messages, messageId);
    if m.None? {
      return NOT_FOUND, [];
    }
    if m.value.writtenBy != email {
      return FORBIDDEN, [];
    }
    status, sources := OK, SourcesOf(db.references, messageId, db.segments, db.documents);
  }
}
