/** The persistent data model of the tutoring chatbot: the rows of every table
    the core reads or writes, the HTTP status codes the handlers answer with,
    and the database itself as one object whose fields are the tables. */
module Schema {

  type Email = string

  /** Roles are free strings in the participation table; these are the three
      the application gives meaning to. */
  type Role = string
  const STUDENT: Role := "student"
  const ASSISTANT: Role := "assistant"
  const INSTRUCTOR: Role := "instructor"

  const OK: int := 200
  const NO_CONTENT: int := 204
  const BAD_REQUEST: int := 400
  const UNAUTHORIZED: int := 401
  const FORBIDDEN: int := 403
  const NOT_FOUND: int := 404
  const TOO_MANY_REQUESTS: int := 429

  datatype Option<T> = None | Some(value: T)

  /** A raised exception is an `Err` carrying its message. */
  datatype Result<T> = Ok(value: T) | Err(error: string)

  /** The three message kinds; a message's kind never changes. */
  datatype MessageType = AssistantMessage | StudentMessage | BotMessage

  /** A conversation's lifecycle, in the order it may advance. */
  datatype ConversationState = Chatbot | Redirected | Resolved

  /** Position of a state in CHATBOT < REDIRECTED < RESOLVED. */
  function Rank(s: ConversationState): nat
  {
    match s
    case Chatbot => 0
    case Redirected => 1
    case Resolved => 2
  }

  /** A conversation row; its id is its key in `Database.conversations`. */
  datatype Conversation = Conversation(
    initiatedBy: Email,
    courseId: int,
    state: ConversationState,
    title: Option<string>,
    summary: Option<string>)

  /** The row a fresh conversation gets: the state column defaults to CHATBOT
      and there is no summary yet. */
  function NewConversation(initiatedBy: Email, courseId: int, title: Option<string>): (c: Conversation)
    ensures c.state == Chatbot && c.summary == None
    ensures c.initiatedBy == initiatedBy && c.courseId == courseId && c.title == title
  {
    Conversation(initiatedBy, courseId, Chatbot, title, None)
  }

  /** A message row. Timestamps are whole seconds on one clock. */
  datatype Message = Message(
    id: nat,
    body: string,
    timestamp: int,
    mtype: MessageType,
    conversationId: nat,
    writtenBy: Email)

  /** A rolling-window usage cap for every user of a course. */
  datatype Limit = Limit(id: nat, courseId: int, maximumNumberOfUses: int, timeSpanSeconds: int)

  /** A document row. `filePath` is where its bytes are stored; `fileHash`
      is an opaque digest of those bytes. */
  datatype Document = Document(
    name: string,
    fileHash: string,
    courseId: int,
    fileExtension: string,
    filePath: string,
    isActive: bool)

  /** A chunk of a document's text; its id is its key in `Database.segments`. */
  datatype Segment = Segment(text: string, documentId: nat)

  /** An embedding vector of one segment. Vectors are opaque to the model:
      only the distance function given to the retriever looks at them. */
  type Vector = seq<int>
  datatype Embedding = Embedding(id: nat, vector: Vector, segmentId: nat)

  /** Records that a message's answer was informed by a segment. */
  datatype Reference = Reference(messageId: nat, segmentId: nat)

  datatype ConsentForm = ConsentForm(id: nat, courseId: int)

  /** The whole database. Keyed tables are maps from their primary key;
      tables whose scan order matters are sequences in insertion order.
      `nextId` stands for every autoincrement sequence at once. */
  class Database {
    var tablesExist: bool
    var courses: map<nat, string>
    var users: set<Email>
    var participations: map<(Email, int), Role>
    var conversations: map<nat, Conversation>
    var messages: seq<Message>
    var references: seq<Reference>
    var limits: seq<Limit>
    var documents: map<nat, Document>
    var segments: map<nat, Segment>
    var embeddings: seq<Embedding>
    var consentForms: seq<ConsentForm>
    var consents: set<(nat, Email)>
    var nextId: nat

    /** Every id handed out so far is below `nextId`, so `nextId` is fresh. */
    ghost predicate Valid()
      reads this
    {
      && (forall id :: id in conversations ==> id < nextId)
      && (forall id :: id in documents ==> id < nextId)
      && (forall id :: id in segments ==> id < nextId)
      && (forall i :: 0 <= i < |messages| ==> messages[i].id < nextId)
      && (forall i :: 0 <= i < |references| ==> references[i].messageId < nextId)
      && (forall i :: 0 <= i < |embeddings| ==> embeddings[i].id < nextId)
    }

    /** Every participation's user exists: the foreign key on the
        participation table. */
    ghost predicate UsersExist()
      reads this`participations, this`users
    {
      forall k :: k in participations ==> k.0 in users
    }

    /** A database whose tables exist and are empty. */
    constructor ()
      ensures Valid() && UsersExist() && tablesExist
      ensures courses == map[] && users == {} && participations == map[]
      ensures conversations == map[] && messages == [] && references == []
      ensures limits == [] && documents == map[] && segments == map[]
      ensures embeddings == [] && consentForms == [] && consents == {}
    {
      tablesExist := true;
      courses, users, participations := map[], {}, map[];
      conversations, messages, references := map[], [], [];
      limits, documents, segments, embeddings := [], map[], map[], [];
      consentForms, consents := [], {};
      nextId := 1;
    }
  }
}
