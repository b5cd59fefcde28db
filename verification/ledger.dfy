/** The shared state of the bot and the SQL-backed API: the `users` table and
    the append-only `reputation_log` table, as immutable sequences in rowid
    order, the order in which SQLite scans them. `user_id INTEGER PRIMARY KEY`
    makes the user id the rowid of `users`, so a valid table lists its users by
    ascending id. Timestamps are opaque natural numbers supplied by the caller. */
module Ledger {
  import opened Wrappers
  import Seqs

  /** One row of the `users` table. */
  datatype User = User(
    id: int,
    username: Option<string>,
    firstName: string,
    score: int,          // reputation_score, may be negative
    tasks: int,          // tasks_completed
    registeredAt: nat,
    lastActive: nat,
    isAgent: bool)

  /** One row of `reputation_log`; its AUTOINCREMENT id is its position plus one. */
  datatype LogEntry = LogEntry(userId: int, change: int, reason: string, timestamp: nat)

  datatype Store = Store(users: seq<User>, log: seq<LogEntry>)

  /** The state right after the tables are created. */
  const Empty: Store := Store([], [])

  /** The ranking key of every SQL leaderboard. */
  function ScoreOf(u: User): int {
    u.score
  }

  predicate HasUser(users: seq<User>, id: int) {
    exists i :: 0 <= i < |users| && users[i].id == id
  }

  /** The `WHERE user_id = id` test. */
  function IdIs(id: int): User -> bool {
    (u: User) => u.id == id
  }

  /** `SELECT * FROM users WHERE user_id = ?` followed by `fetchone()`: the
      first row in scan order with the id. */
  function Find(users: seq<User>, id: int): (r: Option<User>)
    ensures r.Some? <==> HasUser(users, id)
    ensures r.Some? ==> r.value in users && r.value.id == id
  {
    Seqs.First(users, IdIs(id))
  }

  /** One step of the scan `Find` performs. */
  lemma FindCons(users: seq<User>, id: int)
    requires |users| > 0
    ensures Find(users, id) == if users[0].id == id then Some(users[0]) else Find(users[1..], id)
  {
  }

  /** `user_id` is the primary key. */
  predicate DistinctIds(users: seq<User>) {
    forall i, j :: 0 <= i < j < |users| ==> users[i].id != users[j].id
  }

  /** With distinct ids, the row found for an id is the one at its position. */
  lemma FindUnique(users: seq<User>, i: int)
    requires DistinctIds(users) && 0 <= i < |users|
    ensures Find(users, users[i].id) == Some(users[i])
  {
    var r := Find(users, users[i].id);
    var j :| 0 <= j < |users| && users[j] == r.value;
    assert users[j].id == users[i].id;
  }

  /** The sum of the `change` column over the log entries of user `id`. */
  function LogSum(log: seq<LogEntry>, id: int): int
    decreases |log|
  {
    if |log| == 0 then 0
    else LogSum(log[..|log| - 1], id) + (if log[|log| - 1].userId == id then log[|log| - 1].change else 0)
  }

  /** A user nobody logged a change for has ledger sum zero. */
  lemma {:induction false} LogSumAbsent(log: seq<LogEntry>, id: int)
    requires forall j :: 0 <= j < |log| ==> log[j].userId != id
    ensures LogSum(log, id) == 0
    decreases |log|
  {
    if |log| > 0 {
      LogSumAbsent(log[..|log| - 1], id);
    }
  }

  /** Appending one entry moves only its own user's sum, by exactly its change. */
  lemma LogSumAppend(log: seq<LogEntry>, e: LogEntry, id: int)
    ensures LogSum(log + [e], id) == LogSum(log, id) + (if e.userId == id then e.change else 0)
  {
    assert (log + [e])[..|log|] == log;
  }

  /** The stored score of every user is the sum of that user's log changes. */
  predicate ScoresMatchLog(st: Store) {
    forall i :: 0 <= i < |st.users| ==> st.users[i].score == LogSum(st.log, st.users[i].id)
  }

  /** Every log entry refers to a user of the table. */
  predicate NoOrphans(st: Store) {
    forall j :: 0 <= j < |st.log| ==> HasUser(st.users, st.log[j].userId)
  }

  /** Rows in rowid order: ids strictly ascending along the table. */
  predicate IdsAscending(users: seq<User>) {
    forall i, j :: 0 <= i < j < |users| ==> users[i].id < users[j].id
  }

  /** The ledger invariant: rows in rowid order (which also makes `user_id` a
      key), cached scores agree with the log, no orphan entries, task counters
      never negative. */
  predicate Valid(st: Store) {
    && IdsAscending(st.users)
    && ScoresMatchLog(st)
    && NoOrphans(st)
    && (forall i :: 0 <= i < |st.users| ==> st.users[i].tasks >= 0)
  }

  /** `UPDATE users SET ... WHERE user_id = id`: applies `f` to every matching row. */
  function UpdateWhere(users: seq<User>, id: int, f: User -> User): (r: seq<User>)
    ensures |r| == |users|
    ensures forall i :: 0 <= i < |users| && users[i].id == id ==> r[i] == f(users[i])
    ensures forall i :: 0 <= i < |users| && users[i].id != id ==> r[i] == users[i]
  {
    seq(|users|, i requires 0 <= i < |users| => if users[i].id == id then f(users[i]) else users[i])
  }

  /** An update that keeps the id of each row it touches keeps the set of ids. */
  lemma UpdateWhereKeepsIds(users: seq<User>, id: int, f: User -> User)
    requires forall u :: f(u).id == u.id
    ensures forall i :: 0 <= i < |users| ==> UpdateWhere(users, id, f)[i].id == users[i].id
    ensures forall x :: HasUser(UpdateWhere(users, id, f), x) <==> HasUser(users, x)
    ensures DistinctIds(users) ==> DistinctIds(UpdateWhere(users, id, f))
    ensures IdsAscending(users) ==> IdsAscending(UpdateWhere(users, id, f))
  {
    var r := UpdateWhere(users, id, f);
    forall x | HasUser(users, x) ensures HasUser(r, x) {
      var i :| 0 <= i < |users| && users[i].id == x;
      assert r[i].id == x;
    }
  }

  /** Looking a user up after an id-preserving update sees the updated row for
      that id and the old row for every other id. */
  lemma {:induction false} FindAfterUpdate(users: seq<User>, id: int, f: User -> User, x: int)
    requires forall u :: f(u).id == u.id
    ensures Find(UpdateWhere(users, id, f), x)
         == if x == id && Find(users, x).Some? then Some(f(Find(users, x).value)) else Find(users, x)
    decreases |users|
  {
    if |users| > 0 {
      var r := UpdateWhere(users, id, f);
      assert r[1..] == UpdateWhere(users[1..], id, f);
      FindAfterUpdate(users[1..], id, f, x);
      FindCons(r, x);
      FindCons(users, x);
    }
  }

  /** Where an INSERT of a new id lands in rowid order: before the first row
      whose id is larger. */
  function InsertById(users: seq<User>, u: User): (r: seq<User>)
    ensures |r| == |users| + 1
    ensures forall v :: v in r <==> v == u || v in users
    decreases |users|
  {
    if |users| == 0 || u.id < users[0].id then [u] + users
    else
      assert users == [users[0]] + users[1..];
      [users[0]] + InsertById(users[1..], u)
  }

  /** A table in rowid order stays in rowid order when a new id is inserted. */
  lemma {:induction false} InsertByIdAscending(users: seq<User>, u: User)
    requires IdsAscending(users) && !HasUser(users, u.id)
    ensures IdsAscending(InsertById(users, u))
    decreases |users|
  {
    if |users| > 0 && u.id >= users[0].id {
      assert users[0].id != u.id;
      var tail := users[1..];
      forall k | 0 <= k < |tail| ensures tail[k].id != u.id {
        assert tail[k] == users[k + 1];
      }
      InsertByIdAscending(tail, u);
      var rest := InsertById(tail, u);
      forall j | 0 <= j < |rest| ensures users[0].id < rest[j].id {
        assert rest[j] in rest;
        if rest[j] != u {
          var k :| 0 <= k < |tail| && tail[k] == rest[j];
          assert users[k + 1] == rest[j];
        }
      }
    }
  }

  /** Inserting a new id changes the lookup for that id only. */
  lemma {:induction false} FindAfterInsert(users: seq<User>, u: User, x: int)
    requires !HasUser(users, u.id)
    ensures Find(InsertById(users, u), x) == if x == u.id then Some(u) else Find(users, x)
    decreases |users|
  {
    var r := InsertById(users, u);
    if |users| == 0 || u.id < users[0].id {
      assert r[1..] == users;
      FindCons(r, x);
    } else {
      var tail := users[1..];
      forall k | 0 <= k < |tail| ensures tail[k].id != u.id {
        assert tail[k] == users[k + 1];
      }
      FindAfterInsert(tail, u, x);
      assert r[1..] == InsertById(tail, u);
      FindCons(r, x);
      FindCons(users, x);
    }
  }

  /** Inserting a row for a new id, with score 0 and no negative task count,
      keeps the ledger invariant: nobody logged anything for the new id yet. */
  lemma InsertKeepsValid(st: Store, u: User)
    requires Valid(st) && !HasUser(st.users, u.id) && u.score == 0 && u.tasks >= 0
    ensures Valid(Store(InsertById(st.users, u), st.log))
  {
    var users := InsertById(st.users, u);
    InsertByIdAscending(st.users, u);
    forall j | 0 <= j < |st.log| ensures st.log[j].userId != u.id {
      assert HasUser(st.users, st.log[j].userId);
    }
    LogSumAbsent(st.log, u.id);
    forall i | 0 <= i < |users| ensures users[i].score == LogSum(st.log, users[i].id) && users[i].tasks >= 0 {
      assert users[i] in users;
      if users[i] != u {
        var k :| 0 <= k < |st.users| && st.users[k] == users[i];
      }
    }
    forall j | 0 <= j < |st.log| ensures HasUser(users, st.log[j].userId) {
      var i :| 0 <= i < |st.users| && st.users[i].id == st.log[j].userId;
      assert st.users[i] in users;
      var k :| 0 <= k < |users| && users[k] == st.users[i];
    }
  }

  /** An update that keeps each row's id and score and never lowers a task
      counter keeps the ledger invariant. */
  lemma RowUpdateKeepsValid(st: Store, id: int, f: User -> User)
    requires Valid(st)
    requires forall u :: f(u).id == u.id && f(u).score == u.score && f(u).tasks >= u.tasks
    ensures Valid(Store(UpdateWhere(st.users, id, f), st.log))
  {
    UpdateWhereKeepsIds(st.users, id, f);
  }

  /** Moving one existing user's score by `e.change` while logging `e` for that
      user, in one commit, keeps the ledger invariant. */
  lemma ScoreUpdateKeepsValid(st: Store, e: LogEntry, f: User -> User)
    requires Valid(st) && HasUser(st.users, e.userId)
    requires forall u :: f(u).id == u.id && f(u).score == u.score + e.change && f(u).tasks == u.tasks
    ensures Valid(Store(UpdateWhere(st.users, e.userId, f), st.log + [e]))
  {
    var users := UpdateWhere(st.users, e.userId, f);
    var log := st.log + [e];
    UpdateWhereKeepsIds(st.users, e.userId, f);
    forall i | 0 <= i < |users| ensures users[i].score == LogSum(log, users[i].id) {
      LogSumAppend(st.log, e, st.users[i].id);
    }
    forall j | 0 <= j < |log| ensures HasUser(users, log[j].userId) {
      if j < |st.log| {
        assert log[j] == st.log[j];
      }
    }
  }
}
