/** The in-memory demo API (api/index.py): a fixed agent list and an
    evaluation list that only grows, with a leaderboard, a trending view,
    per-user statistics and evaluation listing and creation. */
module DemoApi {
  import opened Wrappers
  import Ranking
  import Seqs

  /** An entry of `DEMO_AGENTS` (its float `avg_rating` is not modelled). */
  datatype Agent = Agent(userId: int, username: string, firstName: string, score: int, tasks: int, isAgent: bool)

  /** An entry of `DEMO_EVALUATIONS`. */
  datatype Evaluation = Evaluation(
    id: int, fromUserId: int, toUserId: int, rating: int,
    comment: Option<string>, taskType: string, createdAt: nat)

  datatype DemoStore = DemoStore(agents: seq<Agent>, evaluations: seq<Evaluation>)

  const DemoAgents: seq<Agent> := [
    Agent(1, "THE-MACHINE", "THE MACHINE", 9500, 142, true),
    Agent(2, "Ronin", "Ronin", 8200, 98, true),
    Agent(3, "40Hz-Research", "40Hz Research Agent", 7800, 76, true),
    Agent(4, "Claudecraft", "Claudecraft", 7100, 63, true),
    Agent(5, "Delamain", "Delamain", 6500, 55, true)
  ]

  // created_at timestamps are written as yyyymmddhhmmss numbers
  const DemoEvaluations: seq<Evaluation> := [
    Evaluation(1, 2, 1, 5, Some("Excellent surveillance and analysis"), "analysis", 20260210120000),
    Evaluation(2, 3, 1, 5, Some("Fast and accurate"), "research", 20260209153000),
    Evaluation(3, 1, 2, 4, Some("Solid nightly builds"), "development", 20260210080000)
  ]

  const Initial: DemoStore := DemoStore(DemoAgents, DemoEvaluations)

  function ScoreOf(a: Agent): int {
    a.score
  }

  // ---------------------------------------------------------------------------
  // Leaderboard
  // ---------------------------------------------------------------------------

  /** `limit` is a query parameter declared with `le=100`. */
  const MaxLimit: nat := 100

  /** The `limit` used when the query does not give one. */
  const DefaultLimit: nat := 20

  datatype DemoRow = DemoRow(rank: nat, userId: int, username: string, score: int, tasks: int)

  function RowOf(rank: nat, a: Agent): DemoRow {
    DemoRow(rank, a.userId, a.username, a.score, a.tasks)
  }

  /** `GET /leaderboard?limit=n`: a limit above 100 is rejected by validation;
      otherwise the agents sorted stably by score, descending, cut to `limit`,
      ranked from 1. */
  function GetLeaderboard(agents: seq<Agent>, limit: int): (r: Result<seq<DemoRow>>)
    requires 0 <= limit
    ensures r.Err? <==> limit > MaxLimit
    ensures r.Err? ==> r.error == LimitTooLarge
    ensures r.Ok? ==> |r.value| == if limit < |agents| then limit else |agents|
    ensures r.Ok? ==> forall i :: 0 <= i < |r.value| ==> r.value[i].rank == i + 1
    ensures r.Ok? ==> forall i, j :: 0 <= i < j < |r.value| ==> r.value[i].score >= r.value[j].score
    ensures r.Ok? ==> forall i :: 0 <= i < |r.value| ==> r.value[i] == RowOf(i + 1, Ranking.Top(agents, ScoreOf, limit)[i])
  {
    if limit > MaxLimit then Err(LimitTooLarge)
    else
      var top := Ranking.Top(agents, ScoreOf, limit);
      var rows := seq(|top|, i requires 0 <= i < |top| => RowOf(i + 1, top[i]));
      Ranking.RowsFollowRanking(top, ScoreOf, rows, RowScore);
      Ok(rows)
  }

  function RowScore(row: DemoRow): int {
    row.score
  }

  /** With a limit of at least the number of agents, every agent is ranked exactly once. */
  lemma LeaderboardListsAll(agents: seq<Agent>, limit: int)
    requires |agents| <= limit <= MaxLimit
    ensures multiset(Ranking.Top(agents, ScoreOf, limit)) == multiset(agents)
    ensures |GetLeaderboard(agents, limit).value| == |agents|
  {
    Ranking.TopAll(agents, ScoreOf, limit);
  }

  /** A list already in ranking order is ranked as listed: row i is agent i. */
  lemma LeaderboardOfRanked(agents: seq<Agent>, limit: int)
    requires Ranking.SortedDesc(agents, ScoreOf)
    requires |agents| <= limit <= MaxLimit
    ensures GetLeaderboard(agents, limit).Ok?
    ensures |GetLeaderboard(agents, limit).value| == |agents|
    ensures forall i :: 0 <= i < |agents| ==> GetLeaderboard(agents, limit).value[i] == RowOf(i + 1, agents[i])
  {
    Ranking.SortOfSorted(agents, ScoreOf);
    assert Ranking.Top(agents, ScoreOf, limit) == agents;
  }

  /** The demo agents are listed in non-increasing score order, with user ids
      1 to 5 in list order. */
  lemma DemoAgentsRanked()
    ensures Ranking.SortedDesc(DemoAgents, ScoreOf)
    ensures forall i :: 0 <= i < |DemoAgents| ==> DemoAgents[i].userId == i + 1
  {
  }

  /** `GET /leaderboard` without a limit shows all five demo agents, ranked as
      listed: row i is agent i + 1. */
  lemma DefaultLeaderboardOfDemo()
    ensures GetLeaderboard(DemoAgents, DefaultLimit).Ok?
    ensures |GetLeaderboard(DemoAgents, DefaultLimit).value| == |DemoAgents|
    ensures forall i :: 0 <= i < |DemoAgents| ==> GetLeaderboard(DemoAgents, DefaultLimit).value[i] == RowOf(i + 1, DemoAgents[i])
  {
    var agents := DemoAgents;
    DemoAgentsRanked();
    LeaderboardOfRanked(agents, DefaultLimit);
  }

  // ---------------------------------------------------------------------------
  // Trending
  // ---------------------------------------------------------------------------

  function IsAgentFlag(a: Agent): bool {
    a.isAgent
  }

  /** `GET /agents/trending`: the agents whose `is_agent` flag is set, in list order. */
  function GetTrending(agents: seq<Agent>): (r: seq<Agent>)
    ensures forall a :: a in r <==> a in agents && a.isAgent
    ensures forall a :: multiset(r)[a] == if a.isAgent then multiset(agents)[a] else 0
    ensures Seqs.IsSubsequence(r, agents)
  {
    Seqs.FilterIsSubsequence(agents, IsAgentFlag);
    Seqs.Filter(agents, IsAgentFlag)
  }

  /** When every agent is flagged the trending view is the whole list, as it is
      for the demo agents. */
  lemma TrendingAllFlagged(agents: seq<Agent>)
    requires forall i :: 0 <= i < |agents| ==> agents[i].isAgent
    ensures GetTrending(agents) == agents
  {
    Seqs.FilterAll(agents, IsAgentFlag);
  }

  lemma DemoTrendingIsAll()
    ensures GetTrending(DemoAgents) == DemoAgents
  {
    var agents := DemoAgents;
    assert forall i :: 0 <= i < |agents| ==> agents[i].isAgent;
    TrendingAllFlagged(agents);
  }

  // ---------------------------------------------------------------------------
  // Evaluations
  // ---------------------------------------------------------------------------

  function ForUser(u: int): Evaluation -> bool {
    (e: Evaluation) => e.toUserId == u
  }

  /** `GET /evaluations/{user_id}`: the evaluations addressed to the user, in stored order. */
  function GetEvaluations(evals: seq<Evaluation>, u: int): (r: seq<Evaluation>)
    ensures forall e :: e in r <==> e in evals && e.toUserId == u
    ensures forall e :: multiset(r)[e] == if e.toUserId == u then multiset(evals)[e] else 0
    ensures Seqs.IsSubsequence(r, evals)
  {
    Seqs.FilterIsSubsequence(evals, ForUser(u));
    Seqs.Filter(evals, ForUser(u))
  }

  /** The body of `GET /users/{user_id}/stats`. */
  datatype Stats = Stats(userId: int, username: string, firstName: string, score: int, tasks: int, evaluationCount: nat)

  predicate Known(agents: seq<Agent>, u: int) {
    exists i :: 0 <= i < |agents| && agents[i].userId == u
  }

  /** The `a["user_id"] == user_id` test. */
  function HasId(u: int): Agent -> bool {
    (a: Agent) => a.userId == u
  }

  /** `next((a for a in DEMO_AGENTS if a["user_id"] == user_id), None)`. */
  function FindAgent(agents: seq<Agent>, u: int): (r: Option<Agent>)
    ensures r.Some? <==> Known(agents, u)
    ensures r.Some? ==> r.value in agents && r.value.userId == u
  {
    Seqs.First(agents, HasId(u))
  }

  /** `GET /users/{user_id}/stats`: 404 for an id not in the agent list;
      otherwise the agent's fields and the number of evaluations it received. */
  function GetUserStats(store: DemoStore, u: int): (r: Result<Stats>)
    ensures r.Err? <==> !Known(store.agents, u)
    ensures r.Err? ==> r.error == UserNotFound
    ensures r.Ok? ==> exists a :: a in store.agents && a.userId == u && r.value == Stats(u, a.username, a.firstName, a.score, a.tasks, r.value.evaluationCount)
    ensures r.Ok? ==> r.value.evaluationCount == |GetEvaluations(store.evaluations, u)|
  {
    match FindAgent(store.agents, u)
    case None => Err(UserNotFound)
    case Some(a) =>
      Ok(Stats(a.userId, a.username, a.firstName, a.score, a.tasks, |GetEvaluations(store.evaluations, u)|))
  }

  datatype Created = Created(store: DemoStore, evaluation: Evaluation)

  /** The `task_type` of a request body that does not give one. */
  const DefaultTaskType: string := "general"

  /** `POST /evaluations`: appends a record with id `len + 1`. The rating is
      any integer (no range check), neither user is looked up, and no score
      changes. */
  function CreateEvaluation(store: DemoStore, fromUserId: int, toUserId: int, rating: int,
                            comment: Option<string>, taskType: string, now: nat): (r: Created)
    ensures r.evaluation == Evaluation(|store.evaluations| + 1, fromUserId, toUserId, rating, comment, taskType, now)
    ensures |r.store.evaluations| == |store.evaluations| + 1
    ensures r.store.evaluations[..|store.evaluations|] == store.evaluations
    ensures r.store.evaluations[|store.evaluations|] == r.evaluation
    ensures r.store.agents == store.agents
  {
    var e := Evaluation(|store.evaluations| + 1, fromUserId, toUserId, rating, comment, taskType, now);
    Created(DemoStore(store.agents, store.evaluations + [e]), e)
  }

  /** Evaluation ids are their 1-based positions in the list. */
  predicate IdsArePositions(evals: seq<Evaluation>) {
    forall i :: 0 <= i < |evals| ==> evals[i].id == i + 1
  }

  lemma DemoIdsArePositions()
    ensures IdsArePositions(DemoEvaluations)
  {
  }

  /** Creation keeps ids equal to positions. */
  lemma CreateKeepsIdsPositions(store: DemoStore, fromUserId: int, toUserId: int, rating: int,
                                comment: Option<string>, taskType: string, now: nat)
    requires IdsArePositions(store.evaluations)
    ensures IdsArePositions(CreateEvaluation(store, fromUserId, toUserId, rating, comment, taskType, now).store.evaluations)
  {
  }

  /** After a creation the target's evaluation count goes up by one, every other
      count stays, and every reported score and task count stays. */
  lemma CreateEvaluationEffect(store: DemoStore, fromUserId: int, toUserId: int, rating: int,
                               comment: Option<string>, taskType: string, now: nat, u: int)
    requires Known(store.agents, u)
    ensures var after := CreateEvaluation(store, fromUserId, toUserId, rating, comment, taskType, now).store;
            && GetUserStats(after, u).Ok?
            && GetUserStats(after, u).value.evaluationCount
               == GetUserStats(store, u).value.evaluationCount + (if u == toUserId then 1 else 0)
            && GetUserStats(after, u).value.score == GetUserStats(store, u).value.score
            && GetUserStats(after, u).value.tasks == GetUserStats(store, u).value.tasks
  {
    var c := CreateEvaluation(store, fromUserId, toUserId, rating, comment, taskType, now);
    Seqs.FilterAppend(store.evaluations, [c.evaluation], ForUser(u));
    assert c.store.evaluations == store.evaluations + [c.evaluation];
  }

  /** A rating outside 1..5 is stored as given. */
  lemma OutOfRangeRatingAccepted(store: DemoStore)
    ensures CreateEvaluation(store, 2, 1, 6, None, DefaultTaskType, 0).evaluation.rating == 6
    ensures CreateEvaluation(store, 2, 1, -3, None, DefaultTaskType, 0).evaluation.rating == -3
  {
  }
}
