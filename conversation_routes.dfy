/** The conversation endpoints of the first package: creating a conversation
    behind the rate limit, listing a user's conversations, moving a
    conversation through CHATBOT -> REDIRECTED -> RESOLVED, and asking the AI
    tutor for a reply. The requester's email and course role are parameters,
    as is the clock. */
module ConversationRoutes {
  import opened Schema
  import opened Sorting
  import RateLimit
  import opened ResponseGeneration

  /** Number of assistant participations in the whole table: the query that
      gates a redirect is not restricted to the conversation's course. */
  function AssistantCount(p: map<(Email, int), Role>): nat
  {
    |set k | k in p && p[k] == ASSISTANT|
  }

  /** The count is zero exactly when no participation anywhere is an
      assistant's, so one assistant in any course unlocks redirects in all. */
  lemma AssistantCountZero(p: map<(Email, int), Role>)
    ensures AssistantCount(p) == 0 <==> forall k :: k in p ==> p[k] != ASSISTANT
  {
    var assistants := set k | k in p && p[k] == ASSISTANT;
    if exists k :: k in p && p[k] == ASSISTANT {
      var k :| k in p && p[k] == ASSISTANT;
      assert k in assistants;
      assert |assistants| == |assistants - {k}| + 1;
    } else {
      assert assistants == {};
    }
  }

  datatype PatchResult = PatchResult(status: int, state: ConversationState)

  /** The decision of `patch_conversation` on an existing conversation. */
  function PatchDecision(conv: Conversation, requested: Option<ConversationState>, email: Email,
                         role: Role, assistants: nat): (r: PatchResult)
    ensures r.status in {NO_CONTENT, FORBIDDEN, BAD_REQUEST}
    ensures r.status != NO_CONTENT ==> r.state == conv.state
    ensures r.state != conv.state ==> r.status == NO_CONTENT && Rank(r.state) == Rank(conv.state) + 1
  {
    match requested
    case None => PatchResult(NO_CONTENT, conv.state)
    case Some(target) =>
      if !InitiatedOrAssists(email, role, conv) then PatchResult(FORBIDDEN, conv.state)
      else if conv.state == Chatbot && target == Redirected then
        if assistants == 0 then PatchResult(BAD_REQUEST, conv.state)
        else PatchResult(NO_CONTENT, Redirected)
      else if conv.state == Redirected && target == Resolved then PatchResult(NO_CONTENT, Resolved)
      else PatchResult(BAD_REQUEST, conv.state)
  }

  /** The transition table: the state changes exactly on CHATBOT -> REDIRECTED
      (when some assistant exists) and REDIRECTED -> RESOLVED, requested by
      someone who may see the conversation; every other authorised request
      with a state is a 400, and a request without a state is a 204 no-op. */
  lemma PatchTransitions(conv: Conversation, requested: Option<ConversationState>, email: Email,
                         role: Role, assistants: nat)
    ensures var r := PatchDecision(conv, requested, email, role, assistants);
      r.state != conv.state <==>
        && requested.Some?
        && InitiatedOrAssists(email, role, conv)
        && ((conv.state == Chatbot && requested.value == Redirected && assistants > 0)
            || (conv.state == Redirected && requested.value == Resolved))
    ensures requested.None? ==> PatchDecision(conv, requested, email, role, assistants) == PatchResult(NO_CONTENT, conv.state)
    ensures var r := PatchDecision(conv, requested, email, role, assistants);
      requested.Some? && InitiatedOrAssists(email, role, conv) && r.state == conv.state ==> r.status == BAD_REQUEST
  {
  }

  /** Nobody but the initiator can move a CHATBOT conversation: an assistant
      cannot redirect someone else's conversation. */
  lemma OnlyInitiatorRedirects(conv: Conversation, requested: Option<ConversationState>, email: Email,
                               role: Role, assistants: nat)
    requires conv.state == Chatbot && email != conv.initiatedBy && requested.Some?
    ensures PatchDecision(conv, requested, email, role, assistants) == PatchResult(FORBIDDEN, Chatbot)
  {
  }

  /** `patch_conversation`: 404 for a missing conversation, otherwise the
      decision above, applied to the stored row. */
  method PatchConversation(db: Database, convId: nat, requested: Option<ConversationState>,
                           email: Email, role: Role) returns (status: int)
    modifies db`conversations
    ensures convId !in old(db.conversations) ==> status == NOT_FOUND && db.conversations == old(db.conversations)
    ensures convId in old(db.conversations) ==>
      var conv := old(db.conversations)[convId];
      var r := PatchDecision(conv, requested, email, role, AssistantCount(db.participations));
      && status == r.status
      && db.conversations == old(db.conversations)[convId := conv.(state := r.state)]
  {
    if convId !in db.conversations {
      return NOT_FOUND;
    }
    var conv := db.conversations[convId];
    var r := PatchDecision(conv, requested, email, role, AssistantCount(db.participations));
    db.conversations := db.conversations[convId := conv.(state := r.state)];
    status := r.status;
  }

  /** `post_conversation`: refused with 429 while any limit of the course is
      reached; otherwise exactly one new CHATBOT conversation owned by the
      caller, under a fresh id. */
  method PostConversation(db: Database, email: Email, course: int, title: string, now: int)
    returns (status: int, convId: Option<nat>)
    requires db.Valid()
    modifies db`conversations, db`nextId
    ensures db.Valid()
    ensures status == TOO_MANY_REQUESTS <==>
      RateLimit.LimitReached(db.limits, old(db.conversations), db.messages, email, course, now)
    ensures status == TOO_MANY_REQUESTS ==>
      convId == None && db.conversations == old(db.conversations) && db.nextId == old(db.nextId)
    ensures status != TOO_MANY_REQUESTS ==>
      && status == OK
      && convId == Some(old(db.nextId))
      && old(db.nextId) !in old(db.conversations)
      && db.conversations == old(db.conversations)[old(db.nextId) := NewConversation(email, course, Some(title))]
      && db.nextId == old(db.nextId) + 1
  {
    var usages := RateLimit.GetLimitUsages(db, email, course, now);
    var reached := RateLimit.LimitUsageListReached(usages);
    if reached {
      return TOO_MANY_REQUESTS, None;
    }
    var id := db.nextId;
    db.conversations := db.conversations[id := NewConversation(email, course, Some(title))];
    db.nextId := db.nextId + 1;
    status, convId := OK, Some(id);
  }

  /** One entry of the conversation list. */
  datatype ConversationEntry = ConversationEntry(id: nat, title: Option<string>, state: ConversationState)

  predicate Owns(convs: map<nat, Conversation>, id: nat, email: Email, course: int)
  {
    id in convs && convs[id].initiatedBy == email && convs[id].courseId == course
  }

  /** The caller's conversations in the course among ids below `n`, newest id
      first (`ORDER BY id DESC`). */
  function OwnConversations(convs: map<nat, Conversation>, email: Email, course: int, n: nat): (r: seq<ConversationEntry>)
    ensures forall k :: 0 <= k < |r| ==>
      && r[k].id < n && Owns(convs, r[k].id, email, course)
      && r[k].title == convs[r[k].id].title && r[k].state == convs[r[k].id].state
    ensures forall i, j :: 0 <= i < j < |r| ==> r[i].id > r[j].id
    ensures forall id: nat :: id < n && Owns(convs, id, email, course) ==>
      ConversationEntry(id, convs[id].title, convs[id].state) in r
  {
    if n == 0 then []
    else
      var id := n - 1;
      var rest := OwnConversations(convs, email, course, n - 1);
      if Owns(convs, id, email, course) then
        var r := [ConversationEntry(id, convs[id].title, convs[id].state)] + rest;
        assert forall k :: 1 <= k < |r| ==> r[k] == rest[k - 1];
        r
      else rest
  }

  function EntryIds(entries: seq<ConversationEntry>): set<nat>
  {
    set e | e in entries :: e.id
  }

  /** `get_conversations`: every conversation the caller initiated in the
      course, each once, in descending id order. */
  method GetConversations(db: Database, email: Email, course: int) returns (entries: seq<ConversationEntry>)
    requires db.Valid()
    ensures entries == OwnConversations(db.conversations, email, course, db.nextId)
    ensures forall id: nat :: Owns(db.conversations, id, email, course) <==> id in EntryIds(entries)
  {
    entries := OwnConversations(db.conversations, email, course, db.nextId);
    forall id: nat | Owns(db.conversations, id, email, course)
      ensures id in EntryIds(entries)
    {
      assert ConversationEntry(id, db.conversations[id].title, db.conversations[id].state) in entries;
    }
  }

  const TITLE_LENGTH: nat := 30

  const TITLE_PROMPT_HEAD: string :=
    "With a user's first message "
    + "in a AI chatbot conversation, "

  const TITLE_PROMPT_TAIL: string :=
    ", generate a 30 character max "
    + "title for this conversation. "
    + "Do not actually answer the queestion, "
    + "just sumarize it in 30 characters "
    + "max. Do not generate anything "
    + "else, only the 30 character "
    + "max title"

  function TitlePrompt(message: string): string
  {
    TITLE_PROMPT_HEAD + message + TITLE_PROMPT_TAIL
  }

  /** `generate_title`: the model's answer to the title prompt, cut to its
      first 30 characters. */
  function GenerateTitle(llm: (string, int) -> string, message: string): (title: string)
    ensures |title| <= TITLE_LENGTH
    ensures title <= llm(TitlePrompt(message), TITLE_LENGTH)
    ensures |title| == Min(TITLE_LENGTH, |llm(TitlePrompt(message), TITLE_LENGTH)|)
  {
    var answer := llm(TitlePrompt(message), TITLE_LENGTH);
    answer[..Min(TITLE_LENGTH, |answer|)]
  }

  /** The guard cascade of `post_ai_response`, in its order: 404, 403, 429,
      400, then OK to proceed. */
  function AiResponseGuard(conv: Option<Conversation>, email: Email, limitReached: bool, messageCount: nat): int
  {
    if conv.None? then NOT_FOUND
    else if conv.value.initiatedBy != email then FORBIDDEN
    else if limitReached then TOO_MANY_REQUESTS
    else if messageCount == 0 then BAD_REQUEST
    else OK
  }

  /** Each refusal happens exactly when its own check fails and every earlier
      one passed; in particular the conversation state is never consulted. */
  lemma AiResponseGuardOrder(conv: Option<Conversation>, email: Email, limitReached: bool, messageCount: nat)
    ensures var s := AiResponseGuard(conv, email, limitReached, messageCount);
      && (s == NOT_FOUND <==> conv.None?)
      && (s == FORBIDDEN <==> conv.Some? && conv.value.initiatedBy != email)
      && (s == TOO_MANY_REQUESTS <==> conv.Some? && conv.value.initiatedBy == email && limitReached)
      && (s == BAD_REQUEST <==> conv.Some? && conv.value.initiatedBy == email && !limitReached && messageCount == 0)
      && (s == OK <==> conv.Some? && conv.value.initiatedBy == email && !limitReached && messageCount > 0)
    ensures conv.Some? ==> forall st :: AiResponseGuard(Some(conv.value.(state := st)), email, limitReached, messageCount)
                                     == AiResponseGuard(conv, email, limitReached, messageCount)
  {
  }

  /** The JSON body of a successful reply. */
  datatype AiReply = AiReply(text: string, title: string, sources: seq<nat>)

  /** The bot row written for a reply: it is recorded as written by the
      requesting student. */
  function BotReply(id: nat, text: string, now: int, convId: nat, requester: Email): Message
  {
    Message(id, text, now, BotMessage, convId, requester)
  }

  function ReferencesFor(messageId: nat, sources: seq<nat>): (refs: seq<Reference>)
    ensures |refs| == |sources|
    ensures forall k :: 0 <= k < |refs| ==> refs[k] == Reference(messageId, sources[k])
  {
    seq(|sources|, k requires 0 <= k < |sources| => Reference(messageId, sources[k]))
  }

  predicate Distinct(s: seq<nat>)
  {
    forall i, j :: 0 <= i < j < |s| ==> s[i] != s[j]
  }

  /** The conversation row after the title step: retitled from the first
      message when the conversation holds exactly one message. */
  function Retitled(convs: map<nat, Conversation>, msgs: seq<Message>, convId: nat,
                    llm: (string, int) -> string): (r: map<nat, Conversation>)
    requires convId in convs
    ensures r.Keys == convs.Keys
    ensures forall id :: id in r && id != convId ==> r[id] == convs[id]
    ensures r[convId] == convs[convId].(title := r[convId].title)
  {
    var own := ConversationMessages(msgs, convId);
    if |own| == 1 then convs[convId := convs[convId].(title := Some(GenerateTitle(llm, own[0].body)))]
    else convs
  }

  /** The guard outcome of `post_ai_response` on the stored tables. */
  function AiGuardStatus(convs: map<nat, Conversation>, msgs: seq<Message>, limits: seq<Limit>,
                         convId: nat, email: Email, now: int): int
  {
    var conv := if convId in convs then Some(convs[convId]) else None;
    var reached := conv.Some? && RateLimit.LimitReached(limits, convs, msgs, email, conv.value.courseId, now);
    AiResponseGuard(conv, email, reached, |ConversationMessages(msgs, convId)|)
  }

  /** The guards of `post_ai_response`, evaluated in the source's order
      against the tables; nothing is written. */
  method CheckAiGuard(db: Database, convId: nat, email: Email, now: int) returns (status: int)
    ensures status == AiGuardStatus(db.conversations, db.messages, db.limits, convId, email, now)
  {
    if convId !in db.conversations {
      return NOT_FOUND;
    }
    var conv := db.conversations[convId];
    if conv.initiatedBy != email {
      return FORBIDDEN;
    }
    var usages := RateLimit.GetLimitUsages(db, email, conv.courseId, now);
    var reached := RateLimit.LimitUsageListReached(usages);
    if reached {
      return TOO_MANY_REQUESTS;
    }
    if |ConversationMessages(db.messages, convId)| == 0 {
      return BAD_REQUEST;
    }
    status := OK;
  }

  /** `post_ai_response`. After the guards, a one-message conversation is
      retitled (and stays retitled even if no reply follows); if no reply is
      owed the answer is 400 with no message written; otherwise exactly one
      bot message is appended and, in a second step, one reference per
      source. A source listed twice violates the reference table's key, so
      that step fails as a whole (500) after the bot message was stored. */
  method PostAiResponse(db: Database, convId: nat, email: Email, now: int,
                        embed: string -> Vector, l2: (Vector, Vector) -> int, llm: (string, int) -> string)
    returns (status: int, reply: Option<AiReply>)
    requires db.Valid()
    modifies db`conversations, db`messages, db`references, db`nextId
    ensures db.Valid()
    ensures var guard := AiGuardStatus(old(db.conversations), old(db.messages), db.limits, convId, email, now);
      && (guard != OK ==>
            && status == guard && reply == None
            && db.conversations == old(db.conversations) && db.messages == old(db.messages)
            && db.references == old(db.references) && db.nextId == old(db.nextId))
      && (guard == OK ==>
            && convId in old(db.conversations)
            && (Snapshot(db.conversations, db.messages, db.references, db.nextId), status, reply)
               == Answered(old(Snapshot(db.conversations, db.messages, db.references, db.nextId)),
                           Retrieval(db.embeddings, db.segments, db.documents, embed, l2), llm, convId, email, now))
  {
    var rt := Retrieval(db.embeddings, db.segments, db.documents, embed, l2);
    status := CheckAiGuard(db, convId, email, now);
    if status != OK {
      return status, None;
    }
    ghost var before := Snapshot(db.conversations, db.messages, db.references, db.nextId);
    assert before == old(Snapshot(db.conversations, db.messages, db.references, db.nextId));
    status, reply := Answer(db, convId, email, now, rt, llm);
    assert rt == Retrieval(db.embeddings, db.segments, db.documents, embed, l2);
  }

  /** The tables `post_ai_response` writes. */
  datatype Snapshot = Snapshot(conversations: map<nat, Conversation>, messages: seq<Message>,
                               references: seq<Reference>, nextId: nat)

  /** What answering a guarded request leaves behind: the tables, the status
      and the reply. The conversation is retitled first; if generation on
      the retitled conversation owes no reply, the answer is 400 and only the
      title is written; otherwise one bot message is stored under a fresh id,
      then one reference per source, unless a repeated source fails that
      second commit (500). */
  function Answered(before: Snapshot, rt: Retrieval, llm: (string, int) -> string,
                    convId: nat, email: Email, now: int): (Snapshot, int, Option<AiReply>)
    requires convId in before.conversations
  {
    var convs := Retitled(before.conversations, before.messages, convId, llm);
    var r := UcrGenerateResponse(convs, before.messages, rt, llm, convId, DEFAULT_HISTORY, MAX_RESPONSE_TOKENS);
    if r.Err? || r.value.None? then
      (before.(conversations := convs), BAD_REQUEST, None)
    else
      Stored(before.(conversations := convs), r.value.value, convId, email, now)
  }

  /** The storing step of an answer, on tables whose conversation already
      carries its new title. */
  function Stored(s: Snapshot, g: GenerationResponse, convId: nat, email: Email, now: int): (Snapshot, int, Option<AiReply>)
    requires convId in s.conversations
  {
    var id := s.nextId;
    var msgs := s.messages + [BotReply(id, g.text, now, convId, email)];
    if Distinct(g.sources) then
      var title := if s.conversations[convId].title.Some? then s.conversations[convId].title.value else "None";
      (Snapshot(s.conversations, msgs, s.references + ReferencesFor(id, g.sources), id + 1),
       OK, Some(AiReply(g.text, title, g.sources)))
    else
      (Snapshot(s.conversations, msgs, s.references, id + 1), 500, None)
  }

  /** Answering changes the conversations only by the title step, which
      touches the title of the requester's conversation alone. It appends at
      most one message: a bot reply in that conversation, written in the
      requester's name under a fresh id and stamped `now`, exactly when the
      conversation's window ends with a student message. A reply is returned
      exactly when the status is OK. */
  lemma AnsweredEffects(before: Snapshot, rt: Retrieval, llm: (string, int) -> string,
                        convId: nat, email: Email, now: int)
    requires convId in before.conversations
    ensures var (after, status, reply) := Answered(before, rt, llm, convId, email, now);
      && after.conversations == Retitled(before.conversations, before.messages, convId, llm)
      && |before.messages| <= |after.messages| <= |before.messages| + 1
      && after.messages[..|before.messages|] == before.messages
      && (|after.messages| > |before.messages| <==> EndsWithStudent(Window(before.messages, convId, DEFAULT_HISTORY)))
      && (|after.messages| > |before.messages| ==>
            after.messages[|before.messages|] == BotReply(before.nextId, after.messages[|before.messages|].body, now, convId, email))
      && (reply.Some? <==> status == OK)
  {
    var convs := Retitled(before.conversations, before.messages, convId, llm);
    var r := UcrGenerateResponse(convs, before.messages, rt, llm, convId, DEFAULT_HISTORY, MAX_RESPONSE_TOKENS);
    assert r.Ok?;
    if r.value.None? {
      assert before.messages[..|before.messages|] == before.messages;
    } else {
      StoredEffects(before.(conversations := convs), r.value.value, convId, email, now);
    }
  }

  /** Storing keeps the conversations, appends exactly one bot reply of the
      requester under the next id, and returns a reply exactly on OK. */
  lemma StoredEffects(s: Snapshot, g: GenerationResponse, convId: nat, email: Email, now: int)
    requires convId in s.conversations
    ensures var (after, status, reply) := Stored(s, g, convId, email, now);
      && after.conversations == s.conversations
      && after.messages == s.messages + [BotReply(s.nextId, g.text, now, convId, email)]
      && after.messages[..|s.messages|] == s.messages
      && (reply.Some? <==> status == OK)
  {
    var msgs := s.messages + [BotReply(s.nextId, g.text, now, convId, email)];
    assert msgs[..|s.messages|] == s.messages;
  }

  /** The part of `post_ai_response` after its guards: title, generation,
      and storing the reply. */
  method Answer(db: Database, convId: nat, email: Email, now: int, rt: Retrieval, llm: (string, int) -> string)
    returns (status: int, reply: Option<AiReply>)
    requires db.Valid() && convId in db.conversations
    modifies db`conversations, db`messages, db`references, db`nextId
    ensures db.Valid()
    ensures (Snapshot(db.conversations, db.messages, db.references, db.nextId), status, reply)
            == Answered(old(Snapshot(db.conversations, db.messages, db.references, db.nextId)), rt, llm, convId, email, now)
  {
    var msgs := db.messages;
    var convs := Retitled(db.conversations, msgs, convId, llm);
    db.conversations := convs;

    var response := UcrGenerateResponse(convs, msgs, rt, llm, convId, DEFAULT_HISTORY, MAX_RESPONSE_TOKENS);
    if response.Err? || response.value.None? {
      return BAD_REQUEST, None;
    }
    status, reply := StoreReply(db, convId, email, now, response.value.value);
  }

  /** The two commits that store a reply: the bot message under a fresh id,
      then one reference per source; a repeated source breaks the reference
      table's key and fails the second commit (500) with the message kept. */
  method StoreReply(db: Database, convId: nat, email: Email, now: int, g: GenerationResponse)
    returns (status: int, reply: Option<AiReply>)
    requires db.Valid() && convId in db.conversations
    modifies db`messages, db`references, db`nextId
    ensures db.Valid()
    ensures db.messages == old(db.messages) + [BotReply(old(db.nextId), g.text, now, convId, email)]
    ensures db.nextId == old(db.nextId) + 1
    ensures Distinct(g.sources) ==> status == OK && db.references == old(db.references) + ReferencesFor(old(db.nextId), g.sources)
    ensures !Distinct(g.sources) ==> status == 500 && db.references == old(db.references)
    ensures (Snapshot(db.conversations, db.messages, db.references, db.nextId), status, reply)
            == Stored(old(Snapshot(db.conversations, db.messages, db.references, db.nextId)), g, convId, email, now)
  {
    var text, sources := g.text, g.sources;
    var conversationTitle := if db.conversations[convId].title.Some? then db.conversations[convId].title.value else "None";
    var id := db.nextId;
    db.messages := db.messages + [BotReply(id, text, now, convId, email)];
    db.nextId := db.nextId + 1;

    var batch: seq<Reference> := [];
    for i := 0 to |sources|
      invariant batch == ReferencesFor(id, sources[..i])
    {
      assert sources[..i + 1] == sources[..i] + [sources[i]];
      batch := batch + [Reference(id, sources[i])];
    }
    assert sources[..|sources|] == sources;
    if !Distinct(sources) {
      return 500, None;
    }
    db.references := db.references + batch;
    status := OK;
    reply := Some(AiReply(text, conversationTitle, sources));
  }

  /** In chronological order, every bot message of the conversation directly
      follows a student message: one reply per student message. */
  ghost predicate RepliesFollowStudents(msgs: seq<Message>, convId: nat)
  {
    var all := Chronological(msgs, convId);
    forall k :: 0 <= k < |all| && all[k].mtype == BotMessage ==> k > 0 && all[k - 1].mtype == StudentMessage
  }

  /** Appending a message stamped no earlier than any message of its
      conversation places it last in chronological order. */
  lemma AppendLatest(msgs: seq<Message>, m: Message)
    requires forall i :: 0 <= i < |msgs| && msgs[i].conversationId == m.conversationId ==> msgs[i].timestamp <= m.timestamp
    ensures Chronological(msgs + [m], m.conversationId) == Chronological(msgs, m.conversationId) + [m]
  {
    var conv := ConversationMessages(msgs, m.conversationId);
    ConversationMessagesAppend(msgs, m, m.conversationId);
    forall i | 0 <= i < |conv|
      ensures Timestamp(conv[i]) <= Timestamp(m)
    {
      assert conv[i] in msgs;
    }
    SortByAppendLatest(conv, m, Timestamp);
  }

  /** The alternation survives any non-bot message posted at the current
      time, and a bot reply posted when the conversation's newest message is a
      student message (which is when a reply is generated). */
  lemma AppendKeepsReplyOrder(msgs: seq<Message>, m: Message)
    requires RepliesFollowStudents(msgs, m.conversationId)
    requires forall i :: 0 <= i < |msgs| && msgs[i].conversationId == m.conversationId ==> msgs[i].timestamp <= m.timestamp
    requires m.mtype == BotMessage ==>
      var all := Chronological(msgs, m.conversationId);
      |all| > 0 && all[|all| - 1].mtype == StudentMessage
    ensures RepliesFollowStudents(msgs + [m], m.conversationId)
  {
    AppendLatest(msgs, m);
    var all := Chronological(msgs, m.conversationId);
    var all' := Chronological(msgs + [m], m.conversationId);
    assert all' == all + [m];
    forall k | 0 <= k < |all'| && all'[k].mtype == BotMessage
      ensures k > 0 && all'[k - 1].mtype == StudentMessage
    {
      if k < |all| {
        assert all'[k] == all[k];
        if k > 0 {
          assert all'[k - 1] == all[k - 1];
        }
      }
    }
  }

  /** Answering keeps one reply per student message: the only message it
      can write is a bot reply, and only when the conversation's newest
      message is a student's. This needs `now` to be no earlier than every
      stored timestamp, which holds when requests are stamped by one clock. */
  lemma AnsweredKeepsReplyOrder(before: Snapshot, rt: Retrieval, llm: (string, int) -> string,
                                convId: nat, email: Email, now: int)
    requires convId in before.conversations
    requires RepliesFollowStudents(before.messages, convId)
    requires forall i :: 0 <= i < |before.messages| ==> before.messages[i].timestamp <= now
    ensures RepliesFollowStudents(Answered(before, rt, llm, convId, email, now).0.messages, convId)
  {
    AnsweredEffects(before, rt, llm, convId, email, now);
    ReplyAppendKeepsOrder(before.messages, Answered(before, rt, llm, convId, email, now).0.messages, convId, now);
  }

  /** The same on message lists: `after` is `before` with at most one bot
      message of the conversation, stamped `now`, appended while the window
      ends with a student message. */
  lemma ReplyAppendKeepsOrder(before: seq<Message>, after: seq<Message>, convId: nat, now: int)
    requires RepliesFollowStudents(before, convId)
    requires forall i :: 0 <= i < |before| ==> before[i].timestamp <= now
    requires |before| <= |after| <= |before| + 1 && after[..|before|] == before
    requires |after| > |before| ==>
      && EndsWithStudent(Window(before, convId, DEFAULT_HISTORY))
      && after[|before|].mtype == BotMessage && after[|before|].conversationId == convId
      && after[|before|].timestamp == now
    ensures RepliesFollowStudents(after, convId)
  {
    if |after| > |before| {
      var m := after[|before|];
      assert after == before + [m];
      WindowIsSuffix(before, convId, DEFAULT_HISTORY);
      AppendKeepsReplyOrder(before, m);
    } else {
      assert after == before;
    }
  }

  /** A second request with no new student message gets no reply: once the
      newest message is the bot's own, generation declines. */
  lemma NoReplyAfterReply(convs: map<nat, Conversation>, msgs: seq<Message>, rt: Retrieval,
                          llm: (string, int) -> string, convId: nat, history: nat, maxTokens: int, m: Message)
    requires convId in convs && m.conversationId == convId && m.mtype == BotMessage
    requires forall i :: 0 <= i < |msgs| && msgs[i].conversationId == convId ==> msgs[i].timestamp <= m.timestamp
    ensures UcrGenerateResponse(convs, msgs + [m], rt, llm, convId, history, maxTokens) == Ok(None)
  {
    AppendLatest(msgs, m);
    WindowIsSuffix(msgs + [m], convId, history);
  }
}
