/** convex/users.ts: `create` (look up by tenant and email, insert when absent) and `get`. */
module Users {
  import opened Wrappers
  import opened Schema
  import Store

  /** Why a Convex function threw. */
  datatype Failure =
    | Thrown(message: string)   // `throw new Error(message)` in a handler
    | NotUnique                 // `.unique()` on a query that matched more than one row

  /** The users that the `by_tenant_email` index lists under (tenantId, email). */
  function Matching(users: map<UserId, User>, tenantId: string, email: string): set<UserId> {
    set id | id in users && users[id].tenantId == tenantId && users[id].email == Some(email)
  }

  /**
   * `create`: when exactly one user is indexed under (tenantId, email) its id is
   * returned and nothing is written; when none is, the arguments are inserted as a
   * new user; when several are, `.unique()` throws and nothing is written.
   */
  method Create(db: Store.Db, tenantId: string, email: string, role: string, allowedSources: seq<string>)
    returns (r: Result<UserId, Failure>)
    requires db.Valid()
    modifies db
    ensures db.Valid()
    ensures |Matching(old(db.users), tenantId, email)| > 1 ==> r == Err(NotUnique) && db.users == old(db.users)
    ensures forall id :: Matching(old(db.users), tenantId, email) == {id} ==> r == Ok(id) && db.users == old(db.users)
    ensures Matching(old(db.users), tenantId, email) == {} ==>
      r.Ok? && r.value !in old(db.users) &&
      db.users == old(db.users)[r.value := AclUser(Some(email), tenantId, role, allowedSources)]
    ensures db.documents == old(db.documents) && db.chunks == old(db.chunks)
    ensures db.queryLogs == old(db.queryLogs) && db.feedback == old(db.feedback)
  {
    var existing := Matching(db.users, tenantId, email);
    if |existing| > 1 {
      return Err(NotUnique);
    }
    if existing != {} {
      var id :| id in existing;
      OnlyMember(existing, id);
      return Ok(id);
    }
    var id := db.InsertUser(AclUser(Some(email), tenantId, role, allowedSources));
    return Ok(id);
  }

  /**
   * Calling `create` twice with the same tenant and email gives the same answer
   * both times, and the second call finds the user the first one inserted: at
   * most one user is added.
   */
  method CreateIsIdempotent(db: Store.Db, tenantId: string, email: string,
                            role: string, allowedSources: seq<string>, role2: string, allowedSources2: seq<string>)
    returns (r1: Result<UserId, Failure>, r2: Result<UserId, Failure>)
    requires db.Valid()
    modifies db
    ensures db.Valid()
    ensures r1 == r2
    ensures |db.users| <= |old(db.users)| + 1
    ensures forall id :: id in old(db.users) ==> id in db.users && db.users[id] == old(db.users)[id]
  {
    ghost var before := Matching(db.users, tenantId, email);
    r1 := Create(db, tenantId, email, role, allowedSources);
    if |before| == 0 {
      assert Matching(db.users, tenantId, email) == {r1.value} by {
        forall id | id in Matching(db.users, tenantId, email) ensures id == r1.value {
          assert id in old(db.users) ==> id in before;
        }
      }
    } else if |before| == 1 {
      var id :| id in before;
      OnlyMember(before, id);
    }
    r2 := Create(db, tenantId, email, role2, allowedSources2);
  }

  lemma OnlyMember(s: set<UserId>, x: UserId)
    requires |s| == 1 && x in s
    ensures s == {x}
  {
    assert |s - {x}| == 0;
  }

  /** `get`: the stored user, or nothing when the id has no row. */
  function Get(db: Store.Db, userId: UserId): (r: Option<User>)
    reads db
    ensures r.Some? <==> userId in db.users
    ensures r.Some? ==> r.value == db.users[userId]
  {
    if userId in db.users then Some(db.users[userId]) else None
  }
}
