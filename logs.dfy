/** convex/logs.ts: the append-only query log and the feedback rule. */
module Logs {
  import opened Wrappers
  import opened Schema
  import Store
  import Users

  const LOG_NOT_FOUND := "Log not found"
  const USER_NOT_FOUND := "User not found"
  const NOT_AUTHORIZED := "Not authorized to provide feedback on this query"

  /** `add`: appends its arguments plus `createdAt` (the clock reading `now`) as one query log. */
  method Add(db: Store.Db, tenantId: string, userId: UserId, message: string, answer: string,
             allowedSources: seq<string>, retrieved: seq<RetrievedEntry>, now: int) returns (id: LogId)
    requires db.Valid()
    modifies db
    ensures db.Valid()
    ensures id !in old(db.queryLogs)
    ensures db.queryLogs == old(db.queryLogs)[id := QueryLog(tenantId, userId, message, answer, allowedSources, retrieved, now)]
    ensures db.users == old(db.users) && db.documents == old(db.documents)
    ensures db.chunks == old(db.chunks) && db.feedback == old(db.feedback)
  {
    id := db.InsertQueryLog(QueryLog(tenantId, userId, message, answer, allowedSources, retrieved, now));
  }

  /**
   * The conditions `addFeedback` tests before it writes, in their order: the log must
   * exist, then the user, then the user must be an admin or the log's owner.
   * The answer is the message of the first check that fails, or None. Tenants
   * are never compared.
   */
  function FeedbackRejection(db: Store.Db, logId: LogId, userId: UserId): (r: Option<string>)
    reads db
    ensures r == Some(LOG_NOT_FOUND) <==> logId !in db.queryLogs
    ensures r == Some(USER_NOT_FOUND) <==> logId in db.queryLogs && userId !in db.users
    ensures r == Some(NOT_AUTHORIZED) <==>
      logId in db.queryLogs && userId in db.users &&
      db.users[userId].role != "admin" && db.queryLogs[logId].userId != userId
    ensures r == None <==>
      logId in db.queryLogs && userId in db.users &&
      (db.users[userId].role == "admin" || db.queryLogs[logId].userId == userId)
  {
    if logId !in db.queryLogs then Some(LOG_NOT_FOUND)
    else if userId !in db.users then Some(USER_NOT_FOUND)
    else if db.users[userId].role != "admin" && db.queryLogs[logId].userId != userId then Some(NOT_AUTHORIZED)
    else None
  }

  /**
   * `addFeedback`: on a failed check it throws that check's message and writes
   * nothing; otherwise it appends its arguments plus `createdAt`. Nothing stops
   * the same user from leaving feedback on the same log again.
   */
  method AddFeedback(db: Store.Db, logId: LogId, userId: UserId, helpful: bool, comment: Option<string>, now: int)
    returns (r: Result<FeedbackId, Users.Failure>)
    requires db.Valid()
    modifies db
    ensures db.Valid()
    ensures r.Err? <==> old(FeedbackRejection(db, logId, userId)).Some?
    ensures r.Err? ==> r.error == Users.Thrown(old(FeedbackRejection(db, logId, userId)).value) &&
                       db.feedback == old(db.feedback)
    ensures r.Ok? ==> r.value !in old(db.feedback) &&
                      db.feedback == old(db.feedback)[r.value := Feedback(logId, userId, helpful, comment, now)]
    ensures db.users == old(db.users) && db.documents == old(db.documents)
    ensures db.chunks == old(db.chunks) && db.queryLogs == old(db.queryLogs)
  {
    var rejection := FeedbackRejection(db, logId, userId);
    if rejection.Some? {
      return Err(Users.Thrown(rejection.value));
    }
    var id := db.InsertFeedback(Feedback(logId, userId, helpful, comment, now));
    return Ok(id);
  }
}
