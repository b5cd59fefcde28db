/** The ledger operations of the Telegram bot (src/bot/main.py): user
    creation, score and task updates, agent registration, the score tier
    shown by /score and the top-5 leaderboard of the inline menu. */
module Bot {
  import opened Wrappers
  import opened Ledger
  import Ranking

  // ---------------------------------------------------------------------------
  // User creation
  // ---------------------------------------------------------------------------

  /** The row `create_user` writes: score, tasks and is_agent take their column
      defaults, both timestamps are the current time. */
  function NewUser(id: int, username: Option<string>, firstName: string, now: nat): User {
    User(id, username, firstName, 0, 0, now, now, false)
  }

  /** `create_user`: INSERT OR REPLACE. A row with the same id is replaced by a
      fresh one in place (the user id is the rowid); a new id is inserted at its
      place in rowid order. */
  function CreateUser(st: Store, id: int, username: Option<string>, firstName: string, now: nat): (r: Store)
    ensures r.log == st.log
    ensures Find(r.users, id) == Some(NewUser(id, username, firstName, now))
    ensures forall x :: x != id ==> Find(r.users, x) == Find(st.users, x)
    ensures IdsAscending(st.users) ==> IdsAscending(r.users)
  {
    var f := (u: User) => NewUser(u.id, username, firstName, now);
    if HasUser(st.users, id) then
      var users := UpdateWhere(st.users, id, f);
      assert forall x :: Find(users, x) == if x == id && Find(st.users, x).Some? then Some(f(Find(st.users, x).value)) else Find(st.users, x) by {
        forall x { FindAfterUpdate(st.users, id, f, x); }
      }
      UpdateWhereKeepsIds(st.users, id, f);
      Store(users, st.log)
    else
      var u := NewUser(id, username, firstName, now);
      var users := InsertById(st.users, u);
      assert forall x :: Find(users, x) == if x == id then Some(u) else Find(st.users, x) by {
        forall x { FindAfterInsert(st.users, u, x); }
      }
      assert IdsAscending(st.users) ==> IdsAscending(users) by {
        if IdsAscending(st.users) { InsertByIdAscending(st.users, u); }
      }
      Store(users, st.log)
  }

  /** The guard every handler puts in front of `create_user`:
      `if not get_user(id): create_user(...)`. */
  function EnsureUser(st: Store, id: int, username: Option<string>, firstName: string, now: nat): (r: Store)
    ensures r.log == st.log
    ensures Find(r.users, id) == if HasUser(st.users, id) then Find(st.users, id) else Some(NewUser(id, username, firstName, now))
    ensures forall x :: x != id ==> Find(r.users, x) == Find(st.users, x)
    ensures HasUser(st.users, id) ==> r == st
  {
    if HasUser(st.users, id) then st else CreateUser(st, id, username, firstName, now)
  }

  /** Unguarded, INSERT OR REPLACE wipes an existing user's score, tasks and
      agent flag; this is why every caller checks `get_user` first. */
  lemma CreateUserResets(st: Store, id: int, username: Option<string>, firstName: string, now: nat)
    requires Find(st.users, id).Some? && Find(st.users, id).value.score != 0
    ensures Find(CreateUser(st, id, username, firstName, now).users, id).value.score == 0
    ensures !ScoresMatchLog(CreateUser(st, id, username, firstName, now)) || !ScoresMatchLog(st)
  {
    var r := CreateUser(st, id, username, firstName, now);
    var u := Find(st.users, id).value;
    var i :| 0 <= i < |st.users| && st.users[i] == u;
    var v := Find(r.users, id).value;
    var j :| 0 <= j < |r.users| && r.users[j] == v;
    if ScoresMatchLog(st) {
      assert LogSum(st.log, id) == u.score;
      assert r.users[j].score != LogSum(r.log, r.users[j].id);
    }
  }

  /** The guarded creation keeps the ledger invariant. */
  lemma EnsureUserPreservesValid(st: Store, id: int, username: Option<string>, firstName: string, now: nat)
    requires Valid(st)
    ensures Valid(EnsureUser(st, id, username, firstName, now))
  {
    if !HasUser(st.users, id) {
      var u := NewUser(id, username, firstName, now);
      assert EnsureUser(st, id, username, firstName, now) == Store(InsertById(st.users, u), st.log);
      InsertKeepsValid(st, u);
    }
  }

  // ---------------------------------------------------------------------------
  // Score and task updates
  // ---------------------------------------------------------------------------

  /** `update_user_score`: one commit holding the UPDATE of the score and
      last_active and the INSERT of the log entry. There is no existence check:
      for an unknown id the UPDATE matches nothing but the INSERT still runs. */
  function UpdateUserScore(st: Store, id: int, delta: int, reason: string, now: nat): (r: Store)
    ensures r.log == st.log + [LogEntry(id, delta, reason, now)]
    ensures |r.users| == |st.users|
    ensures Find(r.users, id)
         == if HasUser(st.users, id)
            then Some(Find(st.users, id).value.(score := Find(st.users, id).value.score + delta, lastActive := now))
            else None
    ensures forall x :: x != id ==> Find(r.users, x) == Find(st.users, x)
    ensures LogSum(r.log, id) == LogSum(st.log, id) + delta
    ensures forall x :: x != id ==> LogSum(r.log, x) == LogSum(st.log, x)
  {
    var f := (u: User) => u.(score := u.score + delta, lastActive := now);
    var users := UpdateWhere(st.users, id, f);
    var log := st.log + [LogEntry(id, delta, reason, now)];
    assert forall x :: Find(users, x) == if x == id && Find(st.users, x).Some? then Some(f(Find(st.users, x).value)) else Find(st.users, x) by {
      forall x { FindAfterUpdate(st.users, id, f, x); }
    }
    assert forall x :: LogSum(log, x) == LogSum(st.log, x) + (if id == x then delta else 0) by {
      forall x { LogSumAppend(st.log, LogEntry(id, delta, reason, now), x); }
    }
    Store(users, log)
  }

  /** On an existing user, `update_user_score` keeps score == sum of log changes. */
  lemma UpdateUserScorePreservesValid(st: Store, id: int, delta: int, reason: string, now: nat)
    requires Valid(st) && HasUser(st.users, id)
    ensures Valid(UpdateUserScore(st, id, delta, reason, now))
  {
    var f := (u: User) => u.(score := u.score + delta, lastActive := now);
    ScoreUpdateKeepsValid(st, LogEntry(id, delta, reason, now), f);
    assert UpdateUserScore(st, id, delta, reason, now) == Store(UpdateWhere(st.users, id, f), st.log + [LogEntry(id, delta, reason, now)]);
  }

  /** For an unknown id the table is untouched but an orphan entry is logged. */
  lemma UpdateUserScoreOrphan(st: Store, id: int, delta: int, reason: string, now: nat)
    requires !HasUser(st.users, id)
    ensures UpdateUserScore(st, id, delta, reason, now).users == st.users
    ensures !NoOrphans(UpdateUserScore(st, id, delta, reason, now))
  {
    var r := UpdateUserScore(st, id, delta, reason, now);
    var f := (u: User) => u.(score := u.score + delta, lastActive := now);
    assert r.users == UpdateWhere(st.users, id, f);
    assert r.log[|st.log|].userId == id;
  }

  /** `update_user_tasks`: tasks_completed + 1 for the matching row, nothing else. */
  function UpdateUserTasks(st: Store, id: int): (r: Store)
    ensures r.log == st.log
    ensures |r.users| == |st.users|
    ensures forall i :: 0 <= i < |r.users| ==> r.users[i].score == st.users[i].score && r.users[i].id == st.users[i].id
    ensures Find(r.users, id)
         == if HasUser(st.users, id)
            then Some(Find(st.users, id).value.(tasks := Find(st.users, id).value.tasks + 1))
            else None
    ensures forall x :: x != id ==> Find(r.users, x) == Find(st.users, x)
  {
    var f := (u: User) => u.(tasks := u.tasks + 1);
    var users := UpdateWhere(st.users, id, f);
    assert forall x :: Find(users, x) == if x == id && Find(st.users, x).Some? then Some(f(Find(st.users, x).value)) else Find(st.users, x) by {
      forall x { FindAfterUpdate(st.users, id, f, x); }
    }
    Store(users, st.log)
  }

  lemma UpdateUserTasksPreservesValid(st: Store, id: int)
    requires Valid(st)
    ensures Valid(UpdateUserTasks(st, id))
  {
    var f := (u: User) => u.(tasks := u.tasks + 1);
    RowUpdateKeepsValid(st, id, f);
    assert UpdateUserTasks(st, id) == Store(UpdateWhere(st.users, id, f), st.log);
  }

  // ---------------------------------------------------------------------------
  // Agent registration
  // ---------------------------------------------------------------------------

  /** `UPDATE users SET is_agent = 1 WHERE user_id = ?`. */
  function SetAgent(st: Store, id: int): (r: Store)
    ensures r.log == st.log
    ensures |r.users| == |st.users|
    ensures forall i :: 0 <= i < |r.users| ==> r.users[i] == if st.users[i].id == id then st.users[i].(isAgent := true) else st.users[i]
  {
    Store(UpdateWhere(st.users, id, (u: User) => u.(isAgent := true)), st.log)
  }

  /** `/register`: create the user if absent, then set its agent flag. */
  function CmdRegister(st: Store, id: int, username: Option<string>, firstName: string, now: nat): (r: Store)
    ensures r.log == st.log
    ensures Find(r.users, id).Some? && Find(r.users, id).value.isAgent
    ensures HasUser(st.users, id) ==> Find(r.users, id) == Some(Find(st.users, id).value.(isAgent := true))
    ensures !HasUser(st.users, id) ==> Find(r.users, id) == Some(NewUser(id, username, firstName, now).(isAgent := true))
    ensures forall x :: x != id ==> Find(r.users, x) == Find(st.users, x)
  {
    var s1 := EnsureUser(st, id, username, firstName, now);
    var f := (u: User) => u.(isAgent := true);
    assert forall x :: Find(UpdateWhere(s1.users, id, f), x) == if x == id && Find(s1.users, x).Some? then Some(f(Find(s1.users, x).value)) else Find(s1.users, x) by {
      forall x { FindAfterUpdate(s1.users, id, f, x); }
    }
    SetAgent(s1, id)
  }

  /** Setting the agent flag twice is setting it once. */
  lemma SetAgentTwice(st: Store, id: int)
    ensures SetAgent(SetAgent(st, id), id) == SetAgent(st, id)
  {
    var s1 := SetAgent(st, id);
    var s2 := SetAgent(s1, id);
    forall i | 0 <= i < |s1.users| ensures s2.users[i] == s1.users[i] {
      assert s1.users[i].id == st.users[i].id;
    }
  }

  /** Registering twice is the same as registering once, whatever the names or
      time given the second time. */
  lemma CmdRegisterIdempotent(st: Store, id: int, username: Option<string>, firstName: string, now: nat,
                              username2: Option<string>, firstName2: string, now2: nat)
    ensures CmdRegister(CmdRegister(st, id, username, firstName, now), id, username2, firstName2, now2)
         == CmdRegister(st, id, username, firstName, now)
  {
    var s0 := EnsureUser(st, id, username, firstName, now);
    var s1 := CmdRegister(st, id, username, firstName, now);
    assert s1 == SetAgent(s0, id);
    assert HasUser(s1.users, id);
    assert EnsureUser(s1, id, username2, firstName2, now2) == s1;
    assert CmdRegister(s1, id, username2, firstName2, now2) == SetAgent(s1, id);
    SetAgentTwice(s0, id);
  }

  lemma CmdRegisterPreservesValid(st: Store, id: int, username: Option<string>, firstName: string, now: nat)
    requires Valid(st)
    ensures Valid(CmdRegister(st, id, username, firstName, now))
  {
    var s1 := EnsureUser(st, id, username, firstName, now);
    EnsureUserPreservesValid(st, id, username, firstName, now);
    var f := (u: User) => u.(isAgent := true);
    RowUpdateKeepsValid(s1, id, f);
    assert CmdRegister(st, id, username, firstName, now) == Store(UpdateWhere(s1.users, id, f), s1.log);
  }

  // ---------------------------------------------------------------------------
  // /score: tier and breakdown
  // ---------------------------------------------------------------------------

  /** The ranks `/score` displays, lowest first. */
  datatype Tier = Newcomer | Trusted | Elite | Legendary

  function Level(t: Tier): nat {
    match t
    case Newcomer => 0
    case Trusted => 1
    case Elite => 2
    case Legendary => 3
  }

  /** A score has reached a tier when it is at least the tier's threshold;
      Newcomer has none. */
  predicate Reaches(score: int, t: Tier) {
    match t
    case Newcomer => true
    case Trusted => score >= 100
    case Elite => score >= 500
    case Legendary => score >= 1000
  }

  /** The `if`-chain of `/score`: the highest tier the score has reached. */
  function TierOf(score: int): (r: Tier)
    ensures Reaches(score, r)
    ensures forall t :: Level(t) > Level(r) ==> !Reaches(score, t)
  {
    if score >= 1000 then Legendary
    else if score >= 500 then Elite
    else if score >= 100 then Trusted
    else Newcomer
  }

  /** A higher score never shows a lower tier. */
  lemma TierMonotone(a: int, b: int)
    requires a <= b
    ensures Level(TierOf(a)) <= Level(TierOf(b))
  {
    var ta, tb := TierOf(a), TierOf(b);
    assert Reaches(b, ta);
  }

  /** Every score below 100 is Newcomer, and Trusted starts at exactly 100. */
  lemma TrustedStartsAtHundred(score: int)
    requires score < 100
    ensures TierOf(score) == Newcomer
    ensures TierOf(100) == Trusted
  {
  }

  /** What `/score` reports about a user. */
  datatype ScoreReport = ScoreReport(score: int, tier: Tier, tasks: int, taskPoints: int, community: int)

  /** `/score`: create the caller if absent, then report the score, its tier
      and the "tasks x 10" breakdown line (community contributions are always 0). */
  function CmdScore(st: Store, id: int, username: Option<string>, firstName: string, now: nat): (r: (Store, ScoreReport))
    ensures r.0 == EnsureUser(st, id, username, firstName, now)
    ensures HasUser(st.users, id) ==> r.1.score == Find(st.users, id).value.score
    ensures HasUser(st.users, id) ==> r.1.tasks == Find(st.users, id).value.tasks
    ensures !HasUser(st.users, id) ==> r.1 == ScoreReport(0, Newcomer, 0, 0, 0)
    ensures r.1.tier == TierOf(r.1.score) && r.1.taskPoints == 10 * r.1.tasks && r.1.community == 0
  {
    var s1 := EnsureUser(st, id, username, firstName, now);
    var u := Find(s1.users, id).value;
    (s1, ScoreReport(u.score, TierOf(u.score), u.tasks, u.tasks * 10, 0))
  }

  // ---------------------------------------------------------------------------
  // Inline-menu leaderboard
  // ---------------------------------------------------------------------------

  /** One line of the leaderboard message: `enumerate(top_users, 1)` number, name, score, tasks. */
  datatype BotRow = BotRow(position: nat, name: string, score: int, tasks: int)

  /** `rows` are the lines `enumerate(top, 1)` prints for the users `top`. */
  predicate LinesOf(top: seq<User>, rows: seq<BotRow>) {
    |top| == |rows| && forall i :: 0 <= i < |rows| ==> rows[i] == BotRow(i + 1, top[i].firstName, top[i].score, top[i].tasks)
  }

  /** The lines show distinct rows of the table: they are the lines of some
      selection of users that takes no row more often than the table has it. */
  ghost predicate DrawnFrom(users: seq<User>, rows: seq<BotRow>) {
    exists top :: multiset(top) <= multiset(users) && LinesOf(top, rows)
  }

  function LineScore(b: BotRow): int {
    b.score
  }

  const BotLeaderboardSize: nat := 5

  /** `SELECT first_name, reputation_score, tasks_completed FROM users ORDER BY
      reputation_score DESC LIMIT 5`, numbered from 1. An empty result is the
      "No agents registered yet" message. */
  function BotLeaderboard(users: seq<User>): (r: seq<BotRow>)
    ensures |r| == if |users| < BotLeaderboardSize then |users| else BotLeaderboardSize
    ensures forall i :: 0 <= i < |r| ==> r[i].position == i + 1
    ensures forall i, j :: 0 <= i < j < |r| ==> r[i].score >= r[j].score
    ensures DrawnFrom(users, r)
  {
    var top := Ranking.Top(users, ScoreOf, BotLeaderboardSize);
    var rows := seq(|top|, i requires 0 <= i < |top| => BotRow(i + 1, top[i].firstName, top[i].score, top[i].tasks));
    assert LinesOf(top, rows);
    Ranking.RowsFollowRanking(top, ScoreOf, rows, LineScore);
    rows
  }

  /** The line a user would get at a given position. */
  predicate Shown(r: seq<BotRow>, u: User) {
    exists i :: 0 <= i < |r| && r[i] == BotRow(i + 1, u.firstName, u.score, u.tasks)
  }

  /** The board really is the top five: every user is either shown or scores no
      more than every shown line. */
  lemma BotLeaderboardIsTop(users: seq<User>)
    ensures forall u :: u in users ==>
              (Shown(BotLeaderboard(users), u) || forall i :: 0 <= i < |BotLeaderboard(users)| ==> u.score <= BotLeaderboard(users)[i].score)
  {
    var r := BotLeaderboard(users);
    var top := Ranking.Top(users, ScoreOf, BotLeaderboardSize);
    assert LinesOf(top, r);
    Ranking.TopDominates(users, ScoreOf, BotLeaderboardSize);
    forall u | u in users
      ensures Shown(r, u) || forall i :: 0 <= i < |r| ==> u.score <= r[i].score
    {
      LineShownOrDominated(users, top, r, u);
    }
  }

  lemma LineShownOrDominated(users: seq<User>, top: seq<User>, r: seq<BotRow>, u: User)
    requires u in users && LinesOf(top, r)
    requires forall y, i :: y in multiset(users) - multiset(top) && 0 <= i < |top| ==> ScoreOf(y) <= ScoreOf(top[i])
    ensures Shown(r, u) || forall i :: 0 <= i < |r| ==> u.score <= r[i].score
  {
    if u in multiset(top) {
      var i :| 0 <= i < |top| && top[i] == u;
      assert r[i] == BotRow(i + 1, u.firstName, u.score, u.tasks);
    } else {
      assert u in multiset(users) - multiset(top);
      forall i | 0 <= i < |r| ensures u.score <= r[i].score {
        assert r[i].score == ScoreOf(top[i]);
      }
    }
  }

  /** The leaderboard button: the caller is created if absent, then the board is read. */
  function CmdLeaderboard(st: Store, id: int, username: Option<string>, firstName: string, now: nat): (r: (Store, seq<BotRow>))
    ensures r.0 == EnsureUser(st, id, username, firstName, now)
    ensures r.1 == BotLeaderboard(r.0.users)
    ensures |r.1| > 0
  {
    var s1 := EnsureUser(st, id, username, firstName, now);
    (s1, BotLeaderboard(s1.users))
  }
}
