/** The SQL-backed HTTP API (src/api/main.py) over the same tables as the bot:
    agent listing and lookup, the reputation breakdown, the top-10
    leaderboard and the reputation update endpoint. */
module SqlApi {
  import opened Wrappers
  import opened Ledger
  import Ranking
  import Seqs

  // ---------------------------------------------------------------------------
  // Agents
  // ---------------------------------------------------------------------------

  /** The `AgentResponse` built from a user row: token_id and telegram_id are
      the user id, metadata_uri is empty, active is always true. */
  datatype AgentView = AgentView(tokenId: int, registrationTime: nat, metadataUri: string, active: bool)

  function ViewOf(u: User): AgentView {
    AgentView(u.id, u.registeredAt, "", true)
  }

  function IsAgent(u: User): bool {
    u.isAgent
  }

  /** Some row of the table has this id and its agent flag set. */
  predicate HasAgent(users: seq<User>, x: int) {
    exists j :: 0 <= j < |users| && users[j].id == x && users[j].isAgent
  }

  /** Some listed agent carries this token id. */
  predicate Lists(r: seq<AgentView>, x: int) {
    exists i :: 0 <= i < |r| && r[i].tokenId == x
  }

  /** Some agent row of the table is shown as this view. */
  predicate ViewFrom(users: seq<User>, v: AgentView) {
    exists u :: u in users && u.isAgent && v == ViewOf(u)
  }

  /** Ids ascend along the table. */
  function IdBefore(a: User, b: User): bool {
    a.id < b.id
  }

  /** `GET /agents`: `SELECT * FROM users WHERE is_agent = 1`, in scan order:
      one view per agent row, so by ascending id in a table in rowid order. */
  function ListAgents(users: seq<User>): (r: seq<AgentView>)
    ensures |r| == |Seqs.Filter(users, IsAgent)| <= |users|
    ensures forall x :: Lists(r, x) <==> HasAgent(users, x)
    ensures forall i :: 0 <= i < |r| ==> ViewFrom(users, r[i])
    ensures IdsAscending(users) ==> forall i, j :: 0 <= i < j < |r| ==> r[i].tokenId < r[j].tokenId
  {
    var agents := Seqs.Filter(users, IsAgent);
    var r := seq(|agents|, i requires 0 <= i < |agents| => ViewOf(agents[i]));
    AgentViews(users, agents, r);
    r
  }

  /** The views of the agent rows, one per row and in table order. */
  lemma AgentViews(users: seq<User>, agents: seq<User>, r: seq<AgentView>)
    requires agents == Seqs.Filter(users, IsAgent)
    requires r == seq(|agents|, i requires 0 <= i < |agents| => ViewOf(agents[i]))
    ensures forall x :: Lists(r, x) <==> HasAgent(users, x)
    ensures forall i :: 0 <= i < |r| ==> ViewFrom(users, r[i])
    ensures IdsAscending(users) ==> forall i, j :: 0 <= i < j < |r| ==> r[i].tokenId < r[j].tokenId
  {
    forall x ensures Lists(r, x) <==> HasAgent(users, x) {
      ListedIffAgent(users, agents, r, x);
    }
    forall i | 0 <= i < |r| ensures ViewFrom(users, r[i]) {
      assert agents[i] in agents;
    }
    if IdsAscending(users) {
      assert Seqs.Ordered(users, IdBefore);
      Seqs.FilterKeepsOrder(users, IsAgent, IdBefore);
      forall i, j | 0 <= i < j < |r| ensures r[i].tokenId < r[j].tokenId {
        assert IdBefore(agents[i], agents[j]);
      }
    }
  }

  lemma ListedIffAgent(users: seq<User>, agents: seq<User>, r: seq<AgentView>, x: int)
    requires forall u :: u in agents <==> u in users && IsAgent(u)
    requires r == seq(|agents|, i requires 0 <= i < |agents| => ViewOf(agents[i]))
    ensures Lists(r, x) <==> HasAgent(users, x)
  {
    if HasAgent(users, x) {
      var j :| 0 <= j < |users| && users[j].id == x && users[j].isAgent;
      assert users[j] in agents;
      var i :| 0 <= i < |agents| && agents[i] == users[j];
      assert r[i].tokenId == x;
    }
    if Lists(r, x) {
      var i :| 0 <= i < |r| && r[i].tokenId == x;
      assert agents[i] in agents;
      var j :| 0 <= j < |users| && users[j] == agents[i];
    }
  }

  /** The `WHERE user_id = ? AND is_agent = 1` test. */
  function AgentWithId(id: int): User -> bool {
    (u: User) => u.id == id && u.isAgent
  }

  /** `GET /agents/{id}`: `SELECT * FROM users WHERE user_id = ? AND is_agent = 1`;
      404 when there is no such row. */
  function GetAgent(users: seq<User>, id: int): (r: Result<AgentView>)
    ensures r.Ok? <==> HasAgent(users, id)
    ensures r.Err? ==> r.error == AgentNotFound
    ensures r.Ok? ==> r.value.tokenId == id && ViewFrom(users, r.value)
  {
    match Seqs.First(users, AgentWithId(id))
    case None => Err(AgentNotFound)
    case Some(u) => Ok(ViewOf(u))
  }

  /** An agent can be fetched on its own exactly when it is in the agent list. */
  lemma GetAgentAgreesWithList(users: seq<User>, id: int)
    ensures GetAgent(users, id).Ok? <==> Lists(ListAgents(users), id)
  {
  }

  // ---------------------------------------------------------------------------
  // Reputation breakdown
  // ---------------------------------------------------------------------------

  /** The body of `GET /reputation/{user_id}`. */
  datatype Breakdown = Breakdown(
    userId: int, totalScore: int, taskScore: int,
    responseScore: int, feedbackScore: int, behaviorScore: int, evaluationCount: int)

  /** `GET /reputation/{user_id}`: 404 for an unknown user; otherwise the total
      is the stored score, each completed task is worth 10 points, the three
      other components are placeholders fixed at 0, and the evaluation count
      reported is the task counter. */
  function GetReputation(st: Store, id: int): (r: Result<Breakdown>)
    ensures r.Err? <==> !HasUser(st.users, id)
    ensures r.Err? ==> r.error == UserNotFound
    ensures r.Ok? ==> exists u :: u in st.users && u.id == id && r.value == Breakdown(id, u.score, 10 * u.tasks, 0, 0, 0, u.tasks)
  {
    match Find(st.users, id)
    case None => Err(UserNotFound)
    case Some(u) => Ok(Breakdown(id, u.score, u.tasks * 10, 0, 0, 0, u.tasks))
  }

  // ---------------------------------------------------------------------------
  // Leaderboard
  // ---------------------------------------------------------------------------

  datatype LeaderRow = LeaderRow(rank: nat, userId: int, username: Option<string>, firstName: string, score: int, tasks: int)

  function RowOf(rank: nat, u: User): LeaderRow {
    LeaderRow(rank, u.id, u.username, u.firstName, u.score, u.tasks)
  }

  /** Some stored user would be shown as this row at this rank. */
  predicate RowFrom(users: seq<User>, row: LeaderRow, rank: nat) {
    exists u :: u in users && row == RowOf(rank, u)
  }

  const ApiLeaderboardSize: nat := 10

  /** `GET /leaderboard`: `ORDER BY reputation_score DESC LIMIT 10`, rank i + 1. */
  function GetLeaderboard(users: seq<User>): (r: seq<LeaderRow>)
    ensures |r| == if |users| < ApiLeaderboardSize then |users| else ApiLeaderboardSize
    ensures forall i :: 0 <= i < |r| ==> r[i].rank == i + 1
    ensures forall i, j :: 0 <= i < j < |r| ==> r[i].score >= r[j].score
    ensures forall i :: 0 <= i < |r| ==> RowFrom(users, r[i], i + 1)
  {
    var top := Ranking.Top(users, ScoreOf, ApiLeaderboardSize);
    var rows := seq(|top|, i requires 0 <= i < |top| => RowOf(i + 1, top[i]));
    forall i | 0 <= i < |rows| ensures RowFrom(users, rows[i], i + 1) {
      assert top[i] in users && rows[i] == RowOf(i + 1, top[i]);
    }
    Ranking.RowsFollowRanking(top, ScoreOf, rows, RowScore);
    rows
  }

  function RowScore(row: LeaderRow): int {
    row.score
  }

  /** The row a user would get at a given rank. */
  predicate Shown(r: seq<LeaderRow>, u: User) {
    exists i :: 0 <= i < |r| && r[i] == RowOf(i + 1, u)
  }

  /** The board really is the top ten: every user is either shown or scores no
      more than every shown row. */
  lemma LeaderboardIsTop(users: seq<User>)
    ensures forall u :: u in users ==>
              (Shown(GetLeaderboard(users), u) || forall i :: 0 <= i < |GetLeaderboard(users)| ==> u.score <= GetLeaderboard(users)[i].score)
  {
    var r := GetLeaderboard(users);
    var top := Ranking.Top(users, ScoreOf, ApiLeaderboardSize);
    assert r == seq(|top|, i requires 0 <= i < |top| => RowOf(i + 1, top[i]));
    Ranking.TopDominates(users, ScoreOf, ApiLeaderboardSize);
    forall u | u in users
      ensures Shown(r, u) || forall i :: 0 <= i < |r| ==> u.score <= r[i].score
    {
      ShownOrDominated(users, top, r, u);
    }
  }

  lemma ShownOrDominated(users: seq<User>, top: seq<User>, r: seq<LeaderRow>, u: User)
    requires u in users
    requires r == seq(|top|, i requires 0 <= i < |top| => RowOf(i + 1, top[i]))
    requires forall y, i :: y in multiset(users) - multiset(top) && 0 <= i < |top| ==> ScoreOf(y) <= ScoreOf(top[i])
    ensures Shown(r, u) || forall i :: 0 <= i < |r| ==> u.score <= r[i].score
  {
    if u in multiset(top) {
      var i :| 0 <= i < |top| && top[i] == u;
      assert r[i] == RowOf(i + 1, u);
    } else {
      assert u in multiset(users) - multiset(top);
      forall i | 0 <= i < |r| ensures u.score <= r[i].score {
        assert r[i].score == ScoreOf(top[i]);
      }
    }
  }

  /** The leaderboard never lists the same user twice. */
  lemma LeaderboardIdsDistinct(users: seq<User>)
    requires DistinctIds(users)
    ensures forall i, j :: 0 <= i < j < |GetLeaderboard(users)| ==> GetLeaderboard(users)[i].userId != GetLeaderboard(users)[j].userId
  {
    var top := Ranking.Top(users, ScoreOf, ApiLeaderboardSize);
    TopKeepsDistinctIds(users, top);
  }

  /** A sub-multiset of a primary-keyed table is primary-keyed. */
  lemma TopKeepsDistinctIds(users: seq<User>, top: seq<User>)
    requires DistinctIds(users) && multiset(top) <= multiset(users)
    ensures DistinctIds(top)
  {
    forall i, j | 0 <= i < j < |top| ensures top[i].id != top[j].id {
      if top[i].id == top[j].id {
        assert top[i] in multiset(users) && top[j] in multiset(users);
        var a :| 0 <= a < |users| && users[a] == top[i];
        var b :| 0 <= b < |users| && users[b] == top[j];
        assert a == b;
        CountOfDistinct(users, a);
        TwoOccurrences(top, i, j);
        assert false;
      }
    }
  }

  lemma {:induction false} CountOfDistinct(users: seq<User>, a: int)
    requires DistinctIds(users) && 0 <= a < |users|
    ensures multiset(users)[users[a]] == 1
    decreases |users|
  {
    assert users == [users[0]] + users[1..];
    if a == 0 {
      forall k | 0 <= k < |users[1..]| ensures users[1..][k] != users[0] {
        assert users[1..][k] == users[k + 1];
      }
      assert users[0] !in users[1..];
    } else {
      CountOfDistinct(users[1..], a - 1);
      assert users[1..][a - 1] == users[a];
      assert users[0] != users[a];
    }
  }

  lemma TwoOccurrences<T>(s: seq<T>, i: int, j: int)
    requires 0 <= i < j < |s| && s[i] == s[j]
    ensures multiset(s)[s[i]] >= 2
  {
    assert s == s[..i] + [s[i]] + s[i + 1..j] + [s[j]] + s[j + 1..];
  }

  // ---------------------------------------------------------------------------
  // Reputation update
  // ---------------------------------------------------------------------------

  /** The body returned by `POST /reputation/update`. */
  datatype UpdateResponse = UpdateResponse(userId: int, newScore: int, reason: string)

  datatype Updated = Updated(store: Store, response: UpdateResponse)

  /** `POST /reputation/update`: UPDATE the score (last_active is not touched);
      when no row matched, 404 with nothing written; otherwise INSERT one log
      entry and commit. The `new_score` returned is the submitted change, not
      the updated total. */
  function UpdateReputation(st: Store, id: int, delta: int, reason: string, now: nat): (r: Result<Updated>)
    ensures r.Err? <==> !HasUser(st.users, id)
    ensures r.Err? ==> r.error == UserNotFound
    ensures r.Ok? ==> r.value.response == UpdateResponse(id, delta, reason)
    ensures r.Ok? ==> r.value.store.log == st.log + [LogEntry(id, delta, reason, now)]
    ensures r.Ok? ==> Find(r.value.store.users, id)
                      == Some(Find(st.users, id).value.(score := Find(st.users, id).value.score + delta))
    ensures r.Ok? ==> forall x :: x != id ==> Find(r.value.store.users, x) == Find(st.users, x)
  {
    if !HasUser(st.users, id) then Err(UserNotFound)
    else
      var f := (u: User) => u.(score := u.score + delta);
      var users := UpdateWhere(st.users, id, f);
      assert forall x :: Find(users, x) == if x == id && Find(st.users, x).Some? then Some(f(Find(st.users, x).value)) else Find(st.users, x) by {
        forall x { FindAfterUpdate(st.users, id, f, x); }
      }
      Ok(Updated(Store(users, st.log + [LogEntry(id, delta, reason, now)]), UpdateResponse(id, delta, reason)))
  }

  /** The reported `new_score` is the delta: it equals the stored total only
      when the user's score was 0 before the update. */
  lemma NewScoreIsDelta(st: Store, id: int, delta: int, reason: string, now: nat)
    requires HasUser(st.users, id)
    ensures UpdateReputation(st, id, delta, reason, now).Ok?
    ensures UpdateReputation(st, id, delta, reason, now).value.response.newScore
            == Find(UpdateReputation(st, id, delta, reason, now).value.store.users, id).value.score
            <==> Find(st.users, id).value.score == 0
  {
  }

  /** A successful update keeps the ledger invariant; a failed one changes nothing. */
  lemma UpdateReputationPreservesValid(st: Store, id: int, delta: int, reason: string, now: nat)
    requires Valid(st)
    ensures UpdateReputation(st, id, delta, reason, now).Ok? ==> Valid(UpdateReputation(st, id, delta, reason, now).value.store)
  {
    if HasUser(st.users, id) {
      var f := (u: User) => u.(score := u.score + delta);
      ScoreUpdateKeepsValid(st, LogEntry(id, delta, reason, now), f);
      assert UpdateReputation(st, id, delta, reason, now).value.store
          == Store(UpdateWhere(st.users, id, f), st.log + [LogEntry(id, delta, reason, now)]);
    }
  }
}
