# Tutoring chatbot: decision rules and table updates

This project models the core of a Flask tutoring-chatbot application. The application comes in two packages:

- `ucr_chatbot`, the main application;
- `wlu_chatbot`, a variant of it.

Students open conversations with an AI tutor. A conversation can be redirected to a human teaching assistant, who can later resolve it. Instructors upload course documents, and the tutor's answers retrieve segments from them. Instructors also manage who participates in a course, under per-course rate limits on bot replies.

Under the HTTP, ORM and language-model plumbing are decision rules and table updates. The model states them precisely:

- **One database.** `Schema.Database` is a class whose fields are the tables:
  - courses, users, participations keyed by (email, course), conversations, messages, references, limits, documents, segments, embeddings, consent forms and consents;
  - one autoincrement counter `nextId`.

  Request handlers are methods over that object. Their `modifies` clauses name the tables each handler may write, down to the field.
- **Pure rules as functions.** Guards, counts, windows, rankings and parsers are functions over table values. Most contracts and lemmas are stated over these functions, and the handlers are proved against them.
- **Rate limiting** (`RateLimit`): rolling-window counts of bot replies in the user's own conversations of a course.
- **Conversation lifecycle** (`ConversationRoutes`, `MessageRoutes`):
  - the chatbot → redirected → resolved state machine;
  - the guards of the message, AI-response and patch endpoints, in the order the handlers check them;
  - the rule that a bot reply only ever follows a student message.
- **Prompt assembly** (`ResponseGeneration`) in both packages: history windowing, sender labels and sources.
- **Retrieval** (`Retriever`): top-k segments of the course by distance.
- **Access control** (`Decorators`): the role and consent decorators of both packages.
- **Participants and documents:**
  - bulk participant add and remove (`ParticipatesIn`);
  - the `models.py` helpers (`Models`);
  - document upload and delete (`DocumentRoutes`);
  - the assistant dashboard and send (`AssistantRoutes`).
- **Usage report** (`Summary`).
- **Configuration parsing** (`Config`).
- **Database CLI** (`DbCli`): the `create limit`, `initialize` and `mock` commands.
- **CSV email extraction** (`InstructorPortal`): the instructor portal's browser-side parser.
- **Rate-limit test scenarios** (`Scenarios`), stated over the model.

Two modules are generic helpers:

- `Sorting`: a stable insertion sort used for `ORDER BY`, and reversal.
- `Text`: splitting, joining, index search, decimal rendering and ASCII lower-casing.

Effects outside the database are parameters of the operations that use them:

- the wall clock, as `now`;
- the language model and the summariser;
- the embedder and the vector distance, which is integer-valued here;
- the file parser, the file hash and the storage path;
- the random draws behind generated passwords;
- the calendar-date rendering.

## Model

| member | source | states |
|---|---|---|
| RateLimit.AnyReached | ucr_chatbot/web_helpers/limit.py:35-41 | the list's `reached` holds iff some usage has used >= maximum; an empty list is never reached |
| RateLimit.LimitUsageListReached | wlu_chatbot/web_helpers/limit.py:37-43 | the accumulator loop yields true iff some usage meets its maximum, and false for an empty list |
| RateLimit.CountUsed | ucr_chatbot/web_helpers/limit.py:71-79 | a usage count never exceeds the number of message rows |
| RateLimit.CountUsedIsMatchingRows | ucr_chatbot/web_helpers/limit.py:71-79 | the count equals the number of rows that are bot messages of the user's own course conversations with timestamp strictly after now - span |
| RateLimit.CountUsedAppend | ucr_chatbot/web_helpers/limit.py:71-79 | a new row adds one use exactly when it is such a counted bot reply |
| RateLimit.CountUsedAntitone | ucr_chatbot/web_helpers/limit.py:65-74 | a later window start never counts more uses |
| RateLimit.CourseLimits | ucr_chatbot/web_helpers/limit.py:52 | the limits considered are exactly the limit rows of the course |
| RateLimit.LimitReachedIff | ucr_chatbot/web_helpers/limit.py:43-85 | the limit is reached iff some limit of the course has at least its maximum of counted bot replies in its window; a course without limits is never limited |
| RateLimit.LimitReachedLater | ucr_chatbot/web_helpers/limit.py:65-74 | a limit reached at a later time was already reached at any earlier time, for the same rows |
| RateLimit.UsagesIgnoreOtherMessages | ucr_chatbot/web_helpers/limit.py:71-75 | appending a row that is not a bot reply in the user's own course conversations changes no usage |
| RateLimit.GetLimitUsages | wlu_chatbot/web_helpers/limit.py:46-88 | `get` returns one usage per course limit, in order, carrying its id, span and maximum and the rolling-window count, and writes nothing |
| RateLimit.ClientWithLimitInfo | wlu_chatbot/web_helpers/limit.py:91-100 | returns the configured client together with exactly the usages `get` reports |
| Retriever.Joined | ucr_chatbot/api/context_retrieval/retriever.py:39-44 | the inner join keeps exactly the embedded segments whose document belongs to the course, each with its distance |
| Retriever.GetSegmentsFor | ucr_chatbot/api/context_retrieval/retriever.py:24-59 | at most num_segments results; each is an in-course segment that has an embedding and carries its id, text and document name |
| Retriever.RankedRowsJoined | ucr_chatbot/api/context_retrieval/retriever.py:41-46 | every ranked row comes from the course-scoped join |
| Retriever.RankedOrder | ucr_chatbot/api/context_retrieval/retriever.py:45-46 | the ranking is in non-decreasing distance, has at most n rows, and below n rows is a permutation of the whole join |
| Retriever.OmittedNoCloser | ucr_chatbot/api/context_retrieval/retriever.py:45-46 | an in-course segment left out is no closer than the last one returned |
| ConversationRoutes.AssistantCountZero | ucr_chatbot/web_interface/conversation_routes.py:211-216 | the assistant count is zero iff no participation of any course has the assistant role |
| ConversationRoutes.PatchDecision | ucr_chatbot/web_interface/conversation_routes.py:207-226 | the answer is 204, 403 or 400; a refusal keeps the state; a change moves exactly one step forward |
| ConversationRoutes.PatchTransitions | ucr_chatbot/web_interface/conversation_routes.py:207-226 | the state changes iff the caller initiated or assists and the move is chatbot→redirected with some assistant, or redirected→resolved; an absent state is a 204 no-op; any other requested move by a permitted caller is 400 |
| ConversationRoutes.OnlyInitiatorRedirects | ucr_chatbot/web_interface/conversation_routes.py:207-209 | no one but the initiator can move a chatbot conversation: 403 and the state stays |
| ConversationRoutes.PatchConversation | ucr_chatbot/web_interface/conversation_routes.py:195-226 | a missing conversation gives 404; otherwise the status and new state are the transition table's, and no other conversation changes |
| ConversationRoutes.PostConversation | ucr_chatbot/web_interface/conversation_routes.py:95-121 | 429 iff the limit is reached, and then nothing is created; otherwise exactly one new chatbot conversation owned by the caller, with the given title |
| ConversationRoutes.OwnConversations | ucr_chatbot/web_interface/conversation_routes.py:124-146 | the listing contains exactly the caller's conversations of the course, newest id first, each with its title and state |
| ConversationRoutes.GetConversations | ucr_chatbot/web_interface/conversation_routes.py:124-146 | an id is listed iff the caller initiated that conversation in the course |
| ConversationRoutes.GenerateTitle | ucr_chatbot/web_interface/conversation_routes.py:307-318 | the title is the model's text cut to at most 30 characters |
| ConversationRoutes.AiResponseGuardOrder | ucr_chatbot/web_interface/conversation_routes.py:237-264 | 404 iff no conversation, else 403 iff not the initiator, else 429 iff limited, else 400 iff no messages, else proceed; the conversation state is never consulted |
| ConversationRoutes.ReferencesFor | ucr_chatbot/web_interface/conversation_routes.py:292-299 | one reference row per source segment, in order, all pointing at the new reply |
| ConversationRoutes.Retitled | ucr_chatbot/web_interface/conversation_routes.py:265-273 | retitling changes only the title of that one conversation |
| ConversationRoutes.CheckAiGuard | ucr_chatbot/web_interface/conversation_routes.py:237-264 | the handler's guard status is the guard order's verdict on the current tables |
| ConversationRoutes.PostAiResponse | ucr_chatbot/web_interface/conversation_routes.py:229-304 | a refused request writes nothing; an accepted one retitles after the first message, answers 400 with only that title written when generation yields nothing, and otherwise appends one bot reply written by the requester plus its references; what it writes is `Answered`'s, about which ConversationRoutes.AnsweredKeepsReplyOrder proves that the reply order is kept |
| ConversationRoutes.Answer | ucr_chatbot/web_interface/conversation_routes.py:265-304 | the accepted path of the handler: title, generation, 400 on no reply, reply and references |
| ConversationRoutes.StoreReply | ucr_chatbot/web_interface/conversation_routes.py:283-304 | exactly one bot message is appended; its references are appended and the reply (text, title, sources) returned when the sources are distinct, and a repeated source fails the second commit with 500 and no reply |
| ConversationRoutes.AnsweredEffects | ucr_chatbot/web_interface/conversation_routes.py:265-304 | answering changes the conversations only by the title step; it appends at most one message, a bot reply written by the requester under a fresh id and stamped now, and does so exactly when the conversation's window ends with a student message; a reply is returned exactly when the status is OK |
| ConversationRoutes.StoredEffects | ucr_chatbot/web_interface/conversation_routes.py:283-304 | storing keeps the conversations, keeps every earlier message in place and appends exactly one bot reply by the requester under the next id; a reply is returned exactly when the status is OK |
| ConversationRoutes.AppendLatest | ucr_chatbot/web_helpers/conversation.py:55-65 | a message no older than the conversation's others becomes the last in its chronological order |
| ConversationRoutes.AnsweredKeepsReplyOrder | ucr_chatbot/web_interface/conversation_routes.py:265-299 | answering, at a time no earlier than every stored message, keeps "every bot reply follows a student message" |
| ConversationRoutes.AppendKeepsReplyOrder | ucr_chatbot/web_interface/conversation_routes.py:277-299 | appending a bot reply after a latest student message, or any non-bot message, keeps "every bot reply follows a student message" |
| ConversationRoutes.NoReplyAfterReply | tests/web_interface/test_ai_response.py:67-89 | once the latest message is a bot reply, generation yields no reply, so a second AI request adds nothing |
| MessageRoutes.PostMessageGuardSpec | ucr_chatbot/web_interface/message_routes.py:134-155 | posting is allowed iff the conversation exists, is not resolved, the poster is the initiator or an assistant while redirected, and in chatbot state the limit is not reached; resolved always gives 403; the limit is ignored while redirected |
| MessageRoutes.PostedType | ucr_chatbot/web_interface/message_routes.py:156-163 | the posted type is assistant message iff the role is assistant, otherwise student message, never a bot message |
| MessageRoutes.PostRecheckNeverFires | ucr_chatbot/web_interface/message_routes.py:166-173 | a post the guards let through always passes the post-commit visibility re-check |
| MessageRoutes.PostMessage | ucr_chatbot/web_interface/message_routes.py:129-175 | the status is the guard's; on success exactly one message of the posted type written by the poster is appended, and on refusal nothing changes |
| MessageRoutes.PostSpendsNoUse | ucr_chatbot/web_interface/message_routes.py:156-163 | a posted message never counts against any rate limit |
| MessageRoutes.PostKeepsReplyOrder | ucr_chatbot/web_interface/message_routes.py:156-166 | a post keeps "every bot reply follows a student message" |
| MessageRoutes.Views | ucr_chatbot/web_interface/message_routes.py:105-112 | one view per message, in order |
| MessageRoutes.GetMessages | ucr_chatbot/web_interface/message_routes.py:86-112 | 404 for a missing conversation; 200 iff the caller initiated it or assists it once redirected or resolved, else 403; returns all its messages in ascending timestamp order |
| MessageRoutes.FindMessage | ucr_chatbot/web_interface/message_routes.py:189-191 | finds a message row with the id, or none iff there is none |
| MessageRoutes.SourcesOfSnoc | ucr_chatbot/web_interface/message_routes.py:195-207 | the sources follow the reference table: a new reference of the message adds its segment's source at the end |
| MessageRoutes.SourcesAreReferenced | ucr_chatbot/web_interface/message_routes.py:195-207 | every returned source comes from a reference of that message to a segment whose document exists |
| MessageRoutes.SegmentSources | ucr_chatbot/web_interface/message_routes.py:195-207 | one source per segment id |
| MessageRoutes.SourcesOfNewReply | ucr_chatbot/web_interface/conversation_routes.py:292-299 | the sources of a freshly stored reply are exactly its retrieved segments, in retrieval order |
| MessageRoutes.ReferencesForSnoc | ucr_chatbot/web_interface/conversation_routes.py:292-299 | references are built source by source, in order |
| MessageRoutes.SourcesOfNone | ucr_chatbot/web_interface/message_routes.py:195-207 | a message without references has no sources |
| MessageRoutes.GetMessageSources | ucr_chatbot/web_interface/message_routes.py:185-209 | 404 for an unknown message, 403 unless the requester wrote it, otherwise one (text, document name) per reference of the message |
| AssistantRoutes.WithSummaries | ucr_chatbot/web_interface/assistant_routes.py:61-66 | filling summaries keeps the set of conversations |
| AssistantRoutes.WithSummariesSpec | ucr_chatbot/web_interface/assistant_routes.py:61-66 | only the summary field can change, only for ongoing conversations without one, and each such conversation gets its generated summary |
| AssistantRoutes.WithSummariesIdempotent | ucr_chatbot/web_interface/assistant_routes.py:61-66 | with non-empty summaries, a second dashboard visit generates nothing new |
| AssistantRoutes.WithSummariesStep | ucr_chatbot/web_interface/assistant_routes.py:61-66 | the loop's step: one more conversation is summarised exactly when it still lacks a summary |
| AssistantRoutes.FillSummaries | ucr_chatbot/web_interface/assistant_routes.py:61-66 | the loop stores exactly the summaries the specification assigns |
| AssistantRoutes.CourseNames | ucr_chatbot/web_interface/assistant_routes.py:67-75 | the name map covers exactly the assistant's existing courses, each with its name |
| AssistantRoutes.CollectCourseNames | ucr_chatbot/web_interface/assistant_routes.py:67-75 | the loop builds that map |
| AssistantRoutes.AssistantDashboard | ucr_chatbot/web_interface/assistant_routes.py:33-95 | a user assisting in no course is redirected with no write; otherwise ongoing are the redirected and resolved the resolved conversations of the assistant's courses, after summaries are filled |
| AssistantRoutes.DashboardScoped | ucr_chatbot/web_interface/assistant_routes.py:48-75 | every listed conversation belongs to a course the user assists in, and none is listed as both ongoing and resolved |
| AssistantRoutes.SendGuardSpec | ucr_chatbot/web_interface/assistant_routes.py:141-170 | sending is allowed iff the conversation exists, the sender assists in its course and the message has a non-space character; otherwise 404, 403 or 400; state and initiator are not consulted |
| AssistantRoutes.SendReachesResolved | ucr_chatbot/web_interface/assistant_routes.py:141-182 | an assistant can send into a resolved conversation through this route, which the general message route forbids |
| AssistantRoutes.AssistantSendMessage | ucr_chatbot/web_interface/assistant_routes.py:141-182 | the status is the send guard's; on success exactly one assistant message written by the sender is appended, and otherwise nothing changes |
| DocumentRoutes.LastComponent | ucr_chatbot/web_interface/document_routes.py:73 | the file name is the last path component, never "." |
| DocumentRoutes.PathName | ucr_chatbot/web_interface/document_routes.py:73 | a file name has no slash |
| DocumentRoutes.LastIndexOf | ucr_chatbot/web_interface/document_routes.py:73 | finds the last occurrence of the character, or -1 |
| DocumentRoutes.FileExtension | ucr_chatbot/web_interface/document_routes.py:73 | the extension contains neither a dot nor a slash |
| DocumentRoutes.FileExtensionOf | ucr_chatbot/web_interface/document_routes.py:73 | "base.ext" has extension "ext", without the dot |
| DocumentRoutes.HiddenFileHasNoExtension | ucr_chatbot/web_interface/document_routes.py:73 | a dot file has no extension |
| DocumentRoutes.NewDocument | ucr_chatbot/web_interface/document_routes.py:100-105 | the document row stores the given name, hash and course and is active |
| DocumentRoutes.NewEmbeddings | ucr_chatbot/web_interface/document_routes.py:108-113 | one embedding per chunk |
| DocumentRoutes.WithSegmentsSpec | ucr_chatbot/web_interface/document_routes.py:108-113 | one new segment per chunk with the chunk's text and the document's id; existing segments are untouched |
| DocumentRoutes.IngestedEmbeddings | ucr_chatbot/web_interface/document_routes.py:108-113 | each new segment has exactly one new embedding, holding the embedder's vector of its chunk |
| DocumentRoutes.NewEmbeddingsSnoc | ucr_chatbot/web_interface/document_routes.py:108-113 | chunks are ingested in order, each segment followed by its embedding |
| DocumentRoutes.PostDocument | ucr_chatbot/web_interface/document_routes.py:55-121 | a missing file, an empty name, a duplicate (hash, course) or a parse failure writes nothing; otherwise one document plus one segment and one embedding per chunk, and the upload redirects |
| DocumentRoutes.InsertChunks | ucr_chatbot/web_interface/document_routes.py:108-113 | the chunk loop writes exactly the specified segments and embeddings |
| DocumentRoutes.AddChunks | ucr_chatbot/web_interface/document_routes.py:108-113 | the chunk loop on table values |
| DocumentRoutes.ChunksFresh | ucr_chatbot/web_interface/document_routes.py:108-113 | the new segment and embedding ids stay below the advanced counter |
| DocumentRoutes.UploadKeepsUnique | ucr_chatbot/web_interface/document_routes.py:75-89 | an accepted upload keeps (hash, course) unique among documents |
| DocumentRoutes.DeleteDocument | ucr_chatbot/web_interface/document_routes.py:127-142 | 404 for a missing document; otherwise exactly that row is removed and its stored path returned for deletion |
| Decorators.UcrRolesRequiredSpec | ucr_chatbot/decorators.py:16-58 | 400 iff the course id is falsy; 401 iff the course is given and the user is unauthenticated; the handler runs iff the user participates with an allowed role; otherwise 403 |
| Decorators.WluRolesRequired | wlu_chatbot/decorators.py:21-64 | a role is recorded exactly when the handler runs, and it is an allowed role |
| Decorators.RolesRequiredAgree | wlu_chatbot/decorators.py:58-60 | the two packages' decorators reach the same decision; the second also records the participation's role |
| Decorators.RequestGlobals.constructor | wlu_chatbot/decorators.py:58 | a request starts with no role recorded |
| Decorators.RunWluRolesRequired | wlu_chatbot/decorators.py:21-64 | the decision is the role check's; on success `g.role` becomes the participation's role, otherwise it is untouched |
| Decorators.FirstUnconsented | wlu_chatbot/decorators.py:104-128 | none iff every course form is consented; otherwise the lowest id among the unconsented forms |
| Decorators.ConsentRequiredSpec | wlu_chatbot/decorators.py:67-132 | proceeds iff the course is given, the user is authenticated and participates, and every form of the course is consented; a redirect names an unconsented form of the course |
| Decorators.ConsentProgress | wlu_chatbot/decorators.py:104-128 | consenting to the form shown moves the next redirect to a strictly higher form id |
| ParticipatesIn.Normalize | wlu_chatbot/web_interface/participates_in_routes.py:65-66 | a single email becomes a one-element list; a list is kept |
| ParticipatesIn.AddAllSpec | wlu_chatbot/web_interface/participates_in_routes.py:71-93 | added are exactly the emails not yet in the course; they become users and get the requested role; existing rows are unchanged; every input email ends up participating |
| ParticipatesIn.AddParticipants | wlu_chatbot/web_interface/participates_in_routes.py:71-93 | the loop's tables and added set are the specification's |
| ParticipatesIn.FlashOvercounts | wlu_chatbot/web_interface/participates_in_routes.py:105-106 | the count message as written reports the input length, which exceeds the number added when an input email was already present |
| ParticipatesIn.FlashMessage | wlu_chatbot/web_interface/participates_in_routes.py:96-109 | no-participants iff the list is empty; already-added iff one email and nothing added; the count message (of the added) beyond 10 added, otherwise one message per added email |
| ParticipatesIn.FlashAllAlreadyAdded | wlu_chatbot/web_interface/participates_in_routes.py:96-104 | "all already added" iff at least two emails were given and all were already in the course |
| ParticipatesIn.FlashCountWithinList | wlu_chatbot/web_interface/participates_in_routes.py:105-106 | the corrected count never exceeds the input length |
| ParticipatesIn.PostParticipatesIn | wlu_chatbot/web_interface/participates_in_routes.py:55-111 | the tables after the request are those of adding every normalized email with the requested role, and the flash is the one the handler writes, counting the emails submitted |
| ParticipatesIn.FlashAsWrittenAgrees | wlu_chatbot/web_interface/participates_in_routes.py:96-109 | the handler's flash differs from the corrected one iff more than 10 were added and some submitted email was already present; it then reports the submitted count |
| ParticipatesIn.Removal | wlu_chatbot/web_interface/participates_in_routes.py:121-139 | 404 iff no row, 403 iff the row is an instructor's, otherwise exactly that row is removed; other rows are unchanged |
| ParticipatesIn.InstructorsStay | wlu_chatbot/web_interface/participates_in_routes.py:121-139 | an instructor's participation survives every removal |
| ParticipatesIn.DeleteParticipatesIn | wlu_chatbot/web_interface/participates_in_routes.py:117-142 | the handler's status and table are the removal's |
| Models.AlphabetChar | ucr_chatbot/db/models.py:258-259 | every draw maps to an ASCII letter or digit |
| Models.Password | ucr_chatbot/db/models.py:258-259 | a generated password has 10 characters, all letters or digits |
| Models.AlphabetIsAlphanumeric | ucr_chatbot/db/models.py:258-259 | every letter and digit can be drawn |
| Models.AlphabetDistinct | ucr_chatbot/db/models.py:258-259 | the 62 draws give distinct characters |
| Models.AddNewUser | ucr_chatbot/db/models.py:251-269 | adds the email to the users and returns the generated password |
| Models.AddNewCourse | ucr_chatbot/db/models.py:332-347 | a new course row with a fresh id and the given name |
| Models.Enrol | ucr_chatbot/db/models.py:272-299 | the user exists afterwards; a different role already held for the course is an error, since the key is (email, course); otherwise the row holds the role |
| Models.EnrolIdempotent | ucr_chatbot/db/models.py:280-298 | enrolling twice with the same role changes nothing the second time |
| Models.EnrolKeepsOthers | ucr_chatbot/db/models.py:280-298 | other participations are untouched |
| Models.AddUserToCourse | ucr_chatbot/db/models.py:272-299 | the tables after the call are the enrolment's, and a failed insert leaves the participations as they were |
| Models.Deactivated | ucr_chatbot/db/models.py:371-381 | only `is_active` of the matching active document changes; with no match nothing changes |
| Models.DeactivatedActive | ucr_chatbot/db/models.py:371-397 | the active documents after deactivation are the previous ones minus those at the path |
| Models.SetDocumentInactive | ucr_chatbot/db/models.py:371-381 | the document table becomes the deactivated one |
| Models.GetActiveDocuments | ucr_chatbot/db/models.py:384-397 | returns exactly the paths of the active documents, one per document |
| Schema.NewConversation | ucr_chatbot/db/models.py:109-126 | a new conversation starts in the chatbot state with no summary |
| Schema.Database.constructor | ucr_chatbot/db/cli.py:171-186 | freshly created tables are empty and consistent |
| ResponseGeneration.ConversationMessages | ucr_chatbot/web_helpers/conversation.py:55-65 | exactly the messages of the conversation |
| ResponseGeneration.ConversationMessagesAppend | ucr_chatbot/web_helpers/conversation.py:55-65 | a new row joins its own conversation's messages at the end, and no other conversation's |
| ResponseGeneration.WindowIsSuffix | ucr_chatbot/web_helpers/conversation.py:55-65 | the window is the last history+1 messages by timestamp, oldest first |
| ResponseGeneration.WindowMembers | wlu_chatbot/web_helpers/conversation.py:52-62 | the window holds only messages of the conversation |
| ResponseGeneration.WindowIsLatest | ucr_chatbot/web_helpers/conversation.py:55-65 | no message of the conversation is newer than the window's last, and any left out is no newer than its first |
| ResponseGeneration.MessageToHistoryRoundTrip | ucr_chatbot/web_helpers/conversation.py:111-122 | the "### sender\nbody" entry gives back its sender and body, and the label identifies the message type |
| ResponseGeneration.SegmentIds | ucr_chatbot/web_helpers/conversation.py:97 | the sources are the retrieved segment ids, same order and length |
| ResponseGeneration.UcrGenerateResponse | ucr_chatbot/web_helpers/conversation.py:43-99 | an error iff the conversation is missing; a reply iff the window ends with a student message; its sources are the segments retrieved for the course with that message as question, at most 8; its text is the model's answer to the prompt holding the context of those segments, the history of the earlier window messages and that question |
| ResponseGeneration.UcrHistoryEntriesRoundTrip | ucr_chatbot/web_helpers/conversation.py:74-81 | the history block has one entry per earlier window message, in window order, and each entry reads back as that message's sender and body |
| ResponseGeneration.SourcesInCourse | ucr_chatbot/web_helpers/conversation.py:73-97 | every source is an embedded segment of a document of the conversation's course |
| ResponseGeneration.ReplyOnlyAfterStudent | ucr_chatbot/web_helpers/conversation.py:70-71 | a reply is produced only when the conversation's latest message is a student message |
| ResponseGeneration.WluMessageToHistory | wlu_chatbot/web_helpers/conversation.py:102-115 | student maps to "user" and bot to "model" with the body as the only part; an assistant message is an error |
| ResponseGeneration.HistoryContents | wlu_chatbot/web_helpers/conversation.py:78-80 | the history converts iff it holds no assistant message, one entry per message |
| ResponseGeneration.WluModelInput | wlu_chatbot/web_helpers/conversation.py:78-86 | the model input is the history followed by exactly one final user entry with the prompt |
| ResponseGeneration.WluGenerateResponse | wlu_chatbot/web_helpers/conversation.py:40-90 | an error iff the conversation is missing or a window ending with a student message has an earlier assistant message; a reply iff the window ends with a student message |
| ResponseGeneration.WluRespond | wlu_chatbot/web_helpers/conversation.py:64-90 | on a window already read: an error iff the conversation is missing or the window ends with a student message after an assistant message; a reply iff the window ends with a student message |
| ResponseGeneration.WluReply | wlu_chatbot/web_helpers/conversation.py:73-90 | the answer is produced iff no earlier window message is an assistant message, and its sources are the retrieved segments' ids in order |
| ResponseGeneration.PackagesAgreeWithoutAssistants | wlu_chatbot/web_helpers/conversation.py:40-90 | without assistant messages in the window, both packages agree on error, on whether to reply and on the sources |
| ResponseGeneration.VisibilityByState | wlu_chatbot/web_helpers/conversation.py:118-131 | in the chatbot state only the initiator sees a conversation; an assistant sees every redirected or resolved one; a non-assistant sees only their own |
| Summary.WindowedMessages | wlu_chatbot/api/summary_generation.py:34-43 | a message is in the transcript query iff it belongs to the conversation and lies strictly inside each given bound |
| Summary.TranscriptSpec | wlu_chatbot/api/summary_generation.py:34-46 | the transcript is those messages ordered by timestamp |
| Summary.TypeLabelRoundTrip | wlu_chatbot/api/summary_generation.py:48-52 | every message type has its own label, which has no newline |
| Summary.ParseEntryOf | wlu_chatbot/api/summary_generation.py:54-55 | a "# label\n body" entry parses back to its label's type and its body |
| Summary.ParseRender | wlu_chatbot/api/summary_generation.py:54-55 | a rendered message gives back its type and body |
| Summary.RenderAll | wlu_chatbot/api/summary_generation.py:54-57 | one rendered entry per message, in order |
| Summary.CountsSpec | wlu_chatbot/api/summary_generation.py:76-100 | both counts are zero iff no course message lies in the window; every counted conversation is of the course and has a windowed message |
| Summary.SummariseEach | wlu_chatbot/api/summary_generation.py:102-120 | exactly one summary per distinct conversation id in the window |
| Summary.TitleIgnoresLoneEnd | wlu_chatbot/api/summary_generation.py:138-143 | an end bound without a start bound gives the undated title |
| Summary.ReportInjective | wlu_chatbot/api/summary_generation.py:145-153 | the report determines the student count, the conversation count and the model text |
| Summary.NoNewlineInDigits | wlu_chatbot/api/summary_generation.py:145-153 | a rendered count has no newline |
| Summary.GenerateUsageSummary | wlu_chatbot/api/summary_generation.py:67-155 | one summary per windowed conversation; the report is the title, the active-student and conversation counts and the model's text over the joined summaries |
| Config.GetNonEmptyEnv | ucr_chatbot/config.py:13-18 | the default when the variable is unset or empty, else its value |
| Config.NonEmptyUnlessDefault | ucr_chatbot/config.py:13-18 | an empty value is returned only when it is the default |
| Config.LLMModeFromStr | ucr_chatbot/config.py:28-39 | an unknown mode is an error naming the lower-cased input |
| Config.LLMModeFromStrSpec | ucr_chatbot/config.py:28-39 | accepts exactly "testing", "gemini" and "ollama" in any case, and parsing ignores case |
| Config.LLMModeRoundTrip | ucr_chatbot/config.py:28-39 | each mode's name parses back to it |
| Config.FileStorageModeFromStr | ucr_chatbot/config.py:47-54 | only "local", in any case, is accepted; anything else is an error naming the input |
| Config.RequireOauth | ucr_chatbot/config.py:70 | true iff the lower-cased value, "true" by default, is "true" |
| Config.LoadSettings | ucr_chatbot/config.py:56-79 | loading succeeds iff the database variables are set and both modes parse; the database settings are copied, and the secret key falls back to random bytes |
| Config.Defaults | ucr_chatbot/config.py:66-79 | with only the database variables set: testing mode, local storage at "storage", OAuth required, the local Ollama URL, no Google client and no Gemini key |
| DbCli.Seconds | ucr_chatbot/db/cli.py:134-142 | defined exactly on the seven period words, always positive |
| DbCli.SecondsDecreaseAlongChoices | ucr_chatbot/db/cli.py:86-98 | the choices are listed from the longest period to the shortest |
| DbCli.PeriodsNest | ucr_chatbot/db/cli.py:134-142 | week = 7 days, day = 24 hours, hour = 60 minutes, minute = 6 × ten seconds, ten seconds = 2 × five seconds, five seconds = 5 × one second |
| DbCli.CreateLimit | ucr_chatbot/db/cli.py:145-154 | an accepted period appends one limit with the course, the number of uses and the period's seconds; any other period adds nothing |
| DbCli.InitActionFor | ucr_chatbot/db/cli.py:171-186 | tables are kept iff they exist and force is off; they are created iff they do not exist |
| DbCli.ClearedIsValid | ucr_chatbot/db/cli.py:171-186 | freshly created tables are consistent |
| DbCli.Clear | ucr_chatbot/db/cli.py:178-186 | drop-and-create leaves empty tables |
| DbCli.Initialize | ucr_chatbot/db/cli.py:171-186 | keeping changes nothing; creating or recreating leaves empty tables; afterwards the tables exist |
| DbCli.EnrolExisting | ucr_chatbot/db/cli.py:211-219 | enrolling an existing user adds exactly that participation |
| DbCli.EnrolMockUser | ucr_chatbot/db/cli.py:211-219 | a mock user is enrolled in all three mock courses with its role |
| DbCli.MockEnrolmentsInRange | ucr_chatbot/db/cli.py:211-219 | mock enrolments name only mock users and course ids 1 to 3 |
| DbCli.MockEmailsDistinct | ucr_chatbot/db/cli.py:208-210 | the three mock users are distinct |
| DbCli.AddMockCourses | ucr_chatbot/db/cli.py:205-207 | three courses are added, with consecutive fresh ids |
| DbCli.AddMockUsers | ucr_chatbot/db/cli.py:208-210 | the three mock users are added |
| DbCli.FillMockData | ucr_chatbot/db/cli.py:205-219 | empty tables receive the three courses, the three users and their enrolments |
| DbCli.AddMockData | ucr_chatbot/db/cli.py:200-222 | data is added iff both the course and the user tables are empty; otherwise nothing changes |
| DbCli.Mock | ucr_chatbot/db/cli.py:189-222 | after a create or recreate, mock data is always added, with courses 1 to 3 and enrolments referring to existing users and courses; when kept, data is added iff courses and users were empty |
| InstructorPortal.RemoveFirstComma | ucr_chatbot/static/js/instructor_portal.js:71 | a span without a comma is kept; otherwise exactly one character goes |
| InstructorPortal.RemoveFirstCommaOnlyComma | ucr_chatbot/static/js/instructor_portal.js:71 | the character removed is a comma |
| InstructorPortal.ReplaceQuotedOnlyRemovesCommas | ucr_chatbot/static/js/instructor_portal.js:66-74 | the quoted-span rewrite only deletes commas: everything else, quotes included, is kept in order |
| InstructorPortal.ReplaceQuotedNoQuotes | ucr_chatbot/static/js/instructor_portal.js:66-74 | a line without quotes is unchanged |
| InstructorPortal.ReplaceQuotedOneSpan | ucr_chatbot/static/js/instructor_portal.js:66-74 | in a line with one quoted span, only the span's first comma is removed and the quotes stay |
| InstructorPortal.Lines | ucr_chatbot/static/js/instructor_portal.js:66 | there is one line per newline-separated piece, at least one |
| InstructorPortal.KeepLonger | ucr_chatbot/static/js/instructor_portal.js:78 | the filter keeps exactly the entries strictly longer than the suffix |
| InstructorPortal.KeepLongerInOrder | ucr_chatbot/static/js/instructor_portal.js:78 | the filter keeps the order |
| InstructorPortal.Candidates | ucr_chatbot/static/js/instructor_portal.js:75-77 | one candidate per line after the header |
| InstructorPortal.EmailsFromCsvAsWrittenInOrder | ucr_chatbot/static/js/instructor_portal.js:65-79 | as written, at most one email per non-header line, in line order |
| InstructorPortal.EmailsFromCsvAsWrittenCells | ucr_chatbot/static/js/instructor_portal.js:65-79 | as written, every email ends with the suffix, is longer than it, and is the cell of the email column of some non-header line, or "undefined" when that cell is missing, plus the suffix |
| InstructorPortal.EmailsFromCsvInOrder | ucr_chatbot/static/js/instructor_portal.js:65-79 | corrected (a missing cell read as empty), at most one email per non-header line, in line order |
| InstructorPortal.EmailsFromCsvCells | ucr_chatbot/static/js/instructor_portal.js:65-79 | corrected, every email ends with the suffix, is longer than it, and is the non-empty cell of the email column of some non-header line plus the suffix |
| InstructorPortal.KeepNoneLonger | ucr_chatbot/static/js/instructor_portal.js:78 | entries no longer than the suffix are all dropped |
| InstructorPortal.KeepAllLonger | ucr_chatbot/static/js/instructor_portal.js:78 | entries all longer than the suffix are all kept |
| InstructorPortal.MissingColumnFindsNothing | ucr_chatbot/static/js/instructor_portal.js:75-78 | with no email column in the header the corrected extraction finds no email |
| InstructorPortal.MissingColumnAsWritten | ucr_chatbot/static/js/instructor_portal.js:75-78 | as written, a missing column yields "undefined" plus the suffix once per data line |
| InstructorPortal.TrailingNewlineAsWritten | ucr_chatbot/static/js/instructor_portal.js:77-78 | as written, a trailing newline adds "undefined" plus the suffix |
| InstructorPortal.TrailingNewline | ucr_chatbot/static/js/instructor_portal.js:77-78 | corrected, a trailing newline changes nothing |
| InstructorPortal.OnCsvLoaded | ucr_chatbot/static/js/instructor_portal.js:115-124 | the form alerts iff no email was found, and otherwise sends exactly the emails found |
| InstructorPortal.MissingColumnAlerts | ucr_chatbot/static/js/instructor_portal.js:117-123 | corrected, a missing column always alerts; as written it alerts only for a header-only file |
| Scenarios.ThirdRequestRefused | tests/web_interface/test_rate_limit.py:14-40 | with a limit of two uses per five seconds and two bot replies inside the window, the next message post and the next AI-response request are both refused with 429 |
| Scenarios.WaitingFreesLimit | tests/web_interface/test_rate_limit.py:43-72 | once every bot reply is older than the span, a limit with a positive maximum no longer blocks |

## Left out

- Flask routing, templates, flashing and redirects are not modelled, nor JSON and Pydantic parsing (including the "No data provided" 400). Each handler returns the status or decision it would send.
- Sessions, commits and concurrency are not modelled. Each handler runs atomically on one database, so the check-then-insert race on rate limits and the non-atomic two-commit write of a bot reply and its references are out of scope. ConversationRoutes.StoreReply models the failing second commit, a repeated source segment, as a 500 that keeps the reply.
- The language model, embedder, vector distance, file parser, file hash, storage path, password randomness and date rendering are function parameters, not implementations. The distance is integer-valued.
- Rows that SQL `ORDER BY` leaves tied are kept in table order (a stable sort); the database may order ties differently.
- MessageRoutes.GetMessageSources: sources come in reference-table order, for which the query gives no `ORDER BY`.
- MessageRoutes.PostMessage: the post-commit visibility re-check is not a separate branch. MessageRoutes.PostRecheckNeverFires shows that it never fires.
- The `ucr_chatbot` decorator never sets the request's role, yet the message routes read it. The role is therefore a parameter of the message and patch handlers.
- Lower-casing is ASCII only (`Text.Lower`), and strings are sequences of characters. JavaScript string lengths count UTF-16 units.
- DocumentRoutes keys documents by a generated id, while `models.py` makes `file_path` the primary key. The document helpers in `Models` keep one row per id and deactivate every active row at the path.
- The cascade that removes a deleted document's segments and embeddings is not modelled, nor the removal of the stored file. DocumentRoutes.DeleteDocument returns the path to delete.
- Foreign-key checks are not modelled. `Schema.Database.Valid` only states that ids lie below the shared counter.
- Models.AddNewUser: the stored password hash is left out; only the generated password is modelled.
- DbCli: the `create course`, `create user` and `create participates_in` commands are not modelled, nor the printed messages or `create_vector_extension`.
- DbCli.AddMockCourses: course ids come from the shared counter. They are 1 to 3 only after a create or recreate, as DbCli.Mock states.
- The HTML rendering of the assistant's conversation page is not modelled.
- Summary: the model's token cap and the prompt wording beyond the fixed texts are not modelled.
- `MAX_CHARACTERS_PER_REQUEST` is defined as (10000 − 2000) × 4 but, as in the source, nothing enforces it.
- InstructorPortal: a carriage return before a newline stays in the last field, as in the source.
- Scenarios.ThirdRequestRefused: "4 messages remain" is not restated. It follows from PostMessage and PostAiResponse leaving the tables unchanged on refusal.
- The consent-form CRUD routes, the instructor upload and render glue, OAuth, `conversation.js` and application start-up are not modelled.

## Findings

| source | as written | input that shows it | evidently intended | confidence | as-written member | corrected member |
|---|---|---|---|---|---|---|
| ucr_chatbot/static/js/instructor_portal.js:77-78 | a line with no cell in the email column, or a header without that column, yields the JavaScript value `undefined`; it is concatenated to "undefined@ucr.edu", passes the length filter, and so the empty-result alert at lines 117-123 never fires for a missing column | `"Name,SIS User ID\nAl,al1\n"` gives ["al1@ucr.edu", "undefined@ucr.edu"]; `"Name\nAl"` gives ["undefined@ucr.edu"] and no alert | a missing cell contributes no email; a missing column gives no emails and the alert | not executed | InstructorPortal.TrailingNewlineAsWritten, InstructorPortal.MissingColumnAsWritten, InstructorPortal.EmailsFromCsvAsWrittenCells | InstructorPortal.TrailingNewline, InstructorPortal.MissingColumnFindsNothing, InstructorPortal.MissingColumnAlerts, InstructorPortal.EmailsFromCsvCells |
| wlu_chatbot/web_interface/participates_in_routes.py:105-106 | the "N participants added" message uses `len(data.email)`, the number of emails submitted, not the number actually added | 11 new emails plus one already in the course reports 12 added when 11 were | report `len(added_emails)` | not executed | ParticipatesIn.FlashOvercounts, ParticipatesIn.FlashAsWrittenAgrees | ParticipatesIn.FlashMessage, ParticipatesIn.FlashCountWithinList |
