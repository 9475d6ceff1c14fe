/**
 * The record shapes of the Convex schema (convex/schema.ts): one datatype per
 * table row. Convex ids are typed per table; here each table has its own id
 * type. Convex `v.number()` fields that hold counters or timestamps are `int`;
 * the retrieval score is `real`.
 */
module Schema {
  import opened Wrappers

  datatype UserId = UserId(n: nat)
  datatype DocId = DocId(n: nat)
  datatype ChunkId = ChunkId(n: nat)
  datatype LogId = LogId(n: nat)
  datatype FeedbackId = FeedbackId(n: nat)

  /**
   * A `users` row: the Convex Auth fields, all optional, and the three
   * access-control fields, all required. `role` is any string; nothing in the
   * schema restricts it to "member" or "admin".
   */
  datatype User = User(
    name: Option<string>,
    image: Option<string>,
    email: Option<string>,
    emailVerificationTime: Option<int>,
    phone: Option<string>,
    phoneVerificationTime: Option<int>,
    isAnonymous: Option<bool>,
    tenantId: string,
    role: string,
    allowedSources: seq<string>)

  /** A `documents` row. */
  datatype Document = Document(
    tenantId: string,
    sourceKey: string,
    title: string,
    rawText: string,
    sourceUrl: Option<string>)

  /** A `chunks` row: it carries its own tenant and source, and refers to its document by id. */
  datatype Chunk = Chunk(
    tenantId: string,
    sourceKey: string,
    docId: DocId,
    chunkIndex: int,
    text: string)

  /** One element of `queryLogs.retrieved`: exactly these six fields. */
  datatype RetrievedEntry = RetrievedEntry(
    sourceKey: string,
    score: real,
    docId: DocId,
    docTitle: string,
    chunkId: ChunkId,
    chunkIndex: int)

  /** A `queryLogs` row. */
  datatype QueryLog = QueryLog(
    tenantId: string,
    userId: UserId,
    message: string,
    answer: string,
    allowedSources: seq<string>,
    retrieved: seq<RetrievedEntry>,
    createdAt: int)

  /** A `feedback` row: it refers to a query log and to a user; the comment is optional. */
  datatype Feedback = Feedback(
    logId: LogId,
    userId: UserId,
    helpful: bool,
    comment: Option<string>,
    createdAt: int)

  /** A user record with no Convex Auth fields set, as `ctx.db.insert` stores one built from ACL fields. */
  function AclUser(email: Option<string>, tenantId: string, role: string, allowedSources: seq<string>): User {
    User(None, None, email, None, None, None, None, tenantId, role, allowedSources)
  }
}
