/**
 * The Convex database as one object: a map from id to row for each of the five
 * tables. `insert` hands out an id that no row of any table has yet; the model
 * takes ids from one counter, and `Valid()` says that every id in use lies below it.
 * Each insert changes its own table (and the counter) and nothing else.
 */
module Store {
  import opened Schema

  class Db {
    var users: map<UserId, User>
    var documents: map<DocId, Document>
    var chunks: map<ChunkId, Chunk>
    var queryLogs: map<LogId, QueryLog>
    var feedback: map<FeedbackId, Feedback>
    var next: nat

    ghost predicate Valid()
      reads this
    {
      (forall id :: id in users ==> id.n < next) &&
      (forall id :: id in documents ==> id.n < next) &&
      (forall id :: id in chunks ==> id.n < next) &&
      (forall id :: id in queryLogs ==> id.n < next) &&
      (forall id :: id in feedback ==> id.n < next)
    }

    constructor ()
      ensures Valid()
      ensures users == map[] && documents == map[] && chunks == map[]
      ensures queryLogs == map[] && feedback == map[]
    {
      users, documents, chunks, queryLogs, feedback := map[], map[], map[], map[], map[];
      next := 0;
    }

    method InsertUser(u: User) returns (id: UserId)
      requires Valid()
      modifies this
      ensures Valid()
      ensures id !in old(users) && users == old(users)[id := u]
      ensures documents == old(documents) && chunks == old(chunks)
      ensures queryLogs == old(queryLogs) && feedback == old(feedback)
    {
      id := UserId(next);
      users := users[id := u];
      next := next + 1;
    }

    method InsertDocument(d: Document) returns (id: DocId)
      requires Valid()
      modifies this
      ensures Valid()
      ensures id !in old(documents) && documents == old(documents)[id := d]
      ensures users == old(users) && chunks == old(chunks)
      ensures queryLogs == old(queryLogs) && feedback == old(feedback)
    {
      id := DocId(next);
      documents := documents[id := d];
      next := next + 1;
    }

    method InsertChunk(c: Chunk) returns (id: ChunkId)
      requires Valid()
      modifies this
      ensures Valid()
      ensures id !in old(chunks) && chunks == old(chunks)[id := c]
      ensures id == ChunkId(old(next)) && next == old(next) + 1
      ensures users == old(users) && documents == old(documents)
      ensures queryLogs == old(queryLogs) && feedback == old(feedback)
    {
      id := ChunkId(next);
      chunks := chunks[id := c];
      next := next + 1;
    }

    method InsertQueryLog(l: QueryLog) returns (id: LogId)
      requires Valid()
      modifies this
      ensures Valid()
      ensures id !in old(queryLogs) && queryLogs == old(queryLogs)[id := l]
      ensures users == old(users) && documents == old(documents)
      ensures chunks == old(chunks) && feedback == old(feedback)
    {
      id := LogId(next);
      queryLogs := queryLogs[id := l];
      next := next + 1;
    }

    method InsertFeedback(f: Feedback) returns (id: FeedbackId)
      requires Valid()
      modifies this
      ensures Valid()
      ensures id !in old(feedback) && feedback == old(feedback)[id := f]
      ensures users == old(users) && documents == old(documents)
      ensures chunks == old(chunks) && queryLogs == old(queryLogs)
    {
      id := FeedbackId(next);
      feedback := feedback[id := f];
      next := next + 1;
    }
  }
}
