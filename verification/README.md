# Agent Trust Network: reputation ledger model

A Dafny model of the reputation ledger of the Agent Trust Network. The ledger
has three writers and readers:

- the Telegram bot (`src/bot/main.py`);
- the SQLite-backed HTTP API (`src/api/main.py`);
- the in-memory demo API (`api/index.py`).

The bot and the SQL API share two tables, `users` and `reputation_log`. They are
modelled as immutable sequences in rowid order, which is the order in which
SQLite scans them (`Ledger.Store`). `user_id INTEGER PRIMARY KEY` makes the user
id the rowid of `users`. So a new user is inserted at its id's place, a replaced
user keeps its place, and a valid table lists its users by ascending id. Every
SQL statement becomes a pure function from one `Store` to the next, or a query
over it. The demo API holds `DEMO_AGENTS` and `DEMO_EVALUATIONS`, modelled as
`DemoApi.DemoStore`.

Modules:

- `Wrappers`: `Option` and a `Result` carrying the errors the endpoints raise
  (`UserNotFound`, `AgentNotFound`, and `LimitTooLarge` for `limit > 100`).
- `Seqs`: order-preserving filters and a first-match search. These model
  `WHERE` clauses read in scan order, `fetchone()`, the list comprehensions with
  an `if`, and `next(..., None)`.
- `Ranking`: a stable insertion sort, descending by score, and its top-`n`
  prefix. It models `ORDER BY reputation_score DESC LIMIT n` and Python's
  `sorted(..., reverse=True)[:limit]`.
- `Ledger`: the rows, the lookup `Find`, the insertion of a new id in rowid
  order, the per-user sum of logged changes `LogSum`, and the ledger invariant
  `Valid`. `Valid` requires that:
  - user ids ascend along the table, which also makes them a key;
  - every stored score equals its user's log sum;
  - no log entry names an unknown user;
  - no task counter is negative.
- `Bot`, `SqlApi`, `DemoApi`: the operations of the three source files.
- `Audit`: the writes of the bot and the SQL API as events, replayed from empty
  tables. It proves that the score always equals the sum of the log when
  `update_user_score` is only called for users that exist.

Timestamps (`datetime.now()`) are modelled as natural numbers that the caller
supplies.

Some behaviours of the code are worth stating outright, because the model
follows them exactly:

- The bot's tiers go from Newcomer straight to Trusted at 100. Every score
  below 100 is a Newcomer.
- `create_evaluation` does not check the rating range, looks up neither user
  and changes no score.
- The `new_score` that `POST /reputation/update` returns is the submitted
  change, not the new total.
- `POST /reputation/update` changes the score but not `last_active`.

## Model

| member | source | states |
|---|---|---|
| Ledger.Find | src/bot/main.py:64-71 | a row is returned exactly when some row has the id, and the returned row is a row of the table with that id |
| Ledger.UpdateWhere | src/bot/main.py:93-96 | `UPDATE users ... WHERE user_id = ?`: every row with the id is replaced by the updated row in place, and every other row stays as it was; the table keeps its length |
| Ledger.InsertById | src/bot/main.py:79-82 | an INSERT of a new id adds exactly that row to the table, one row longer, and keeps every existing row |
| Ledger.InsertByIdAscending | src/bot/main.py:37 | inserting an id the table lacks keeps ids ascending along the table, as SQLite's rowid order does for an INTEGER PRIMARY KEY |
| Ledger.FindAfterInsert | src/bot/main.py:79-82 | after inserting a new id, that id looks up the new row and every other id looks up what it did before |
| Ledger.ScoreUpdateKeepsValid | src/bot/main.py:93-103 | moving one existing user's score by a change and logging that change in the same commit keeps the ledger invariant |
| Bot.CreateUser | src/bot/main.py:74-84 | after INSERT OR REPLACE the id looks up a fresh row with score 0, tasks 0 and not an agent; every other id looks up what it did before; the log is untouched; a table in rowid order stays in rowid order |
| Bot.CreateUserResets | src/bot/main.py:79-82 | unguarded, the replace wipes an existing non-zero score, so a table that matched its log no longer does |
| Bot.EnsureUser | src/bot/main.py:143-144 | the `get_user` guard leaves the store exactly as it was for an existing user; otherwise the id afterwards looks up a zero-default row; other users and the log are unchanged |
| Bot.EnsureUserPreservesValid | src/bot/main.py:163-164 | guarded creation keeps the ledger invariant, because a fresh user's score 0 equals the empty sum of its log entries |
| Bot.UpdateUserScore | src/bot/main.py:87-104 | the user's score rises by exactly the delta and last_active becomes the given time; exactly one entry (id, delta, reason, time) is appended; every other user, and the log sum of every other id, is unchanged |
| Bot.UpdateUserScorePreservesValid | src/bot/main.py:93-103 | on an existing user the update keeps score equal to the sum of log changes, together with the rest of the invariant |
| Bot.UpdateUserScoreOrphan | src/bot/main.py:93-101 | for an unknown id the users table is unchanged but an orphan log entry is written |
| Bot.UpdateUserTasks | src/bot/main.py:107-116 | the user's tasks go up by exactly 1; no score, no id and no log entry changes; other users look up as before |
| Bot.UpdateUserTasksPreservesValid | src/bot/main.py:111-114 | a task increment keeps the ledger invariant |
| Bot.CmdRegister | src/bot/main.py:162-180 | afterwards the user exists and is an agent; an existing user keeps all other fields; a new user is a zero-default agent; the log and other users are unchanged |
| Bot.SetAgent | src/bot/main.py:176-179 | every row with the id gets is_agent set in place; other rows and the log are unchanged |
| Bot.CmdRegisterIdempotent | src/bot/main.py:176-180 | registering again, with any names or time, gives the same store as registering once |
| Bot.SetAgentTwice | src/bot/main.py:176-179 | setting is_agent on an id a second time leaves the table as the first time did |
| Bot.CmdRegisterPreservesValid | src/bot/main.py:162-180 | registration keeps the ledger invariant |
| Bot.TierOf | src/bot/main.py:225-232 | the tier is the highest one whose threshold the score reaches: Legendary at 1000, Elite at 500, Trusted at 100, else Newcomer |
| Bot.TierMonotone | src/bot/main.py:225-232 | a larger score never shows a lower tier |
| Bot.TrustedStartsAtHundred | src/bot/main.py:229-232 | every score below 100 is Newcomer; Trusted starts at exactly 100 |
| Bot.CmdScore | src/bot/main.py:217-240 | the caller is created if absent; the report carries the user's score and tasks, the tier of that score, task points of tasks × 10 and community 0; a new user reports all zeros and Newcomer |
| Bot.BotLeaderboard | src/bot/main.py:288-299 | at most 5 lines (all users when fewer); numbered 1..n consecutively; scores non-increasing; the lines are those of a selection of rows that takes no row more often than the table holds it |
| Bot.BotLeaderboardIsTop | src/bot/main.py:290-292 | every user either appears on the board or scores no more than every line shown |
| Bot.CmdLeaderboard | src/bot/main.py:277-303 | the caller is created first and the board is the leaderboard of the table after that creation, so it is never the empty message |
| SqlApi.ListAgents | src/api/main.py:119-133 | one entry per agent row: an id is listed exactly when a row has that id and is_agent set; each entry is that row's view (token id = user id, registration time = registered_at, empty metadata URI, active); in a table in rowid order the entries come by ascending id |
| SqlApi.GetAgent | src/api/main.py:135-149 | succeeds exactly when a row has the id and is an agent, and then returns the view of such a row (token id = the id, registration time = registered_at, empty metadata URI, active); otherwise "Agent not found" |
| SqlApi.GetAgentAgreesWithList | src/api/main.py:122-141 | an agent can be fetched on its own exactly when the list shows it |
| SqlApi.GetReputation | src/api/main.py:151-180 | fails with not-found exactly for unknown users; otherwise total = stored score, task_score = tasks × 10, evaluation_count = tasks, and the response, feedback and behavior scores are 0 |
| SqlApi.GetLeaderboard | src/api/main.py:200-221 | at most 10 rows (all users when fewer); rank = position + 1; scores non-increasing; each row is some user's fields |
| SqlApi.LeaderboardIsTop | src/api/main.py:203-206 | every user either appears or scores no more than every row shown |
| SqlApi.LeaderboardIdsDistinct | src/api/main.py:203-220 | with the primary key in force, no user is listed twice |
| SqlApi.UpdateReputation | src/api/main.py:223-248 | an unknown id fails with not-found and carries no new store; a known id gets score + delta with other fields unchanged, exactly one log entry (id, delta, reason, time), and the response (id, delta, reason) |
| SqlApi.NewScoreIsDelta | src/api/main.py:243-248 | the reported new_score equals the stored total exactly when the score was 0 before |
| SqlApi.UpdateReputationPreservesValid | src/api/main.py:226-241 | a successful update keeps the ledger invariant |
| Ranking.Sort | api/index.py:59 | the result is a permutation of the input, ordered by non-increasing score |
| Ranking.SortStable | api/index.py:59 | within each score the original order survives: the elements with score k appear in the same order before and after sorting |
| Ranking.SortIdempotent | api/index.py:59 | ranking a ranking changes nothing |
| Ranking.Top | api/index.py:59 | the result has min(n, length) entries, sorted by non-increasing score, drawn from the input without repetition beyond the input's own multiplicities |
| Ranking.TopDominates | src/api/main.py:203-206 | nothing left out of the top n scores above anything kept |
| Ranking.TopStable | api/index.py:59 | in each score band the kept entries are the first ones of that band in input order |
| Ranking.TopAll | api/index.py:59 | when n covers the input, the top n is a reordering of all of it |
| DemoApi.GetLeaderboard | api/index.py:57-72 | a limit over 100 is rejected; otherwise min(limit, agents) rows with rank = position + 1, scores non-increasing, row i showing the i-th agent of the stable ranking |
| DemoApi.LeaderboardListsAll | api/index.py:58-59 | with a limit of at least the number of agents, every agent is ranked exactly once |
| DemoApi.LeaderboardOfRanked | api/index.py:59-71 | a list already in ranking order is ranked as listed |
| DemoApi.DemoAgentsRanked | api/index.py:28-34 | the demo agents are in non-increasing score order with user ids 1..5 |
| DemoApi.DefaultLeaderboardOfDemo | api/index.py:57-59 | without a limit (default 20) the demo leaderboard lists all five demo agents, row i being agent i + 1 |
| DemoApi.GetTrending | api/index.py:74-86 | exactly the agents with is_agent set, each as often as in the list, in list order |
| DemoApi.TrendingAllFlagged | api/index.py:84 | when every agent is flagged, as in the demo data, trending is the whole list |
| DemoApi.GetEvaluations | api/index.py:104-107 | exactly the evaluations addressed to the user, each as often as stored, in stored order |
| DemoApi.FindAgent | api/index.py:90 | finds an agent exactly when one has the id, and it is an agent of the list with that id |
| DemoApi.GetUserStats | api/index.py:88-102 | fails with not-found exactly for ids missing from the agent list; otherwise the fields of an agent whose id is the requested one, with evaluation_count = the number of evaluations listed for the user |
| DemoApi.CreateEvaluation | api/index.py:109-121 | appends one record with id = old length + 1 and the given fields; earlier evaluations and all agents are unchanged |
| DemoApi.DemoIdsArePositions | api/index.py:36-40 | the demo evaluations have ids 1..3 at positions 1..3 |
| DemoApi.CreateKeepsIdsPositions | api/index.py:112-120 | appending keeps every evaluation id equal to its 1-based position |
| DemoApi.CreateEvaluationEffect | api/index.py:109-121 | after a creation the target's evaluation_count rises by 1, every other count stays, and no score or task count changes |
| DemoApi.OutOfRangeRatingAccepted | api/index.py:42-47 | ratings 6 and -3 are stored as given |
| Audit.ApplyKeepsValid | src/bot/main.py:87-116 | each allowed write of the bot or the SQL API keeps the ledger invariant |
| Audit.ReplayKeepsValid | src/bot/main.py:93-101 | any history of allowed writes keeps the ledger invariant |
| Audit.ScoreIsLogSum | src/bot/main.py:93-101 | starting from empty tables, when `update_user_score` only targets existing users, every user's score equals the sum of that user's log changes |
| Audit.OrphanBreaksLedger | src/bot/main.py:93-101 | without that rule the invariant fails: an orphan change of 5 followed by the user's first contact leaves score 0 with log sum 5 |
| Audit.TaskPointsAgree | src/api/main.py:167 | the bot's "tasks × 10" line and the API's task_score agree for every existing user |
| Seqs.Filter | api/index.py:106 | keeps exactly the elements passing the test, each as often as in the input, and no more elements than the input has |
| Seqs.FilterIsSubsequence | api/index.py:84 | a filter keeps the input order |
| Seqs.FilterKeepsOrder | src/api/main.py:122 | a filter keeps any order its input is in, such as ascending ids |
| Seqs.First | api/index.py:90 | finds an element exactly when one passes the test, and returns the first one that does |

## Left out

- SQLite connections, schema DDL, `row_factory` and tuple indexing are not modelled. The tables are sequences, and a `SELECT` without `ORDER BY` returns rows in rowid order.
- The order of tied scores under `ORDER BY reputation_score DESC` is not fixed by SQL. The model breaks ties stably, in rowid order, which is ascending user id.
- `reputation_log` ids are AUTOINCREMENT values. They are left implicit as position + 1, since nothing deletes log rows.
- Message texts, keyboards, callback dispatch and polling of the bot are UI and I/O. Apart from the guarded creation of the caller (Bot.EnsureUser, the `Touch` event of `Audit`), the `tasks` and `help` buttons and `/profile` only display data and are not modelled.
- FastAPI setup, CORS, Pydantic parsing and HTTP status codes are framework glue. Not-found and the limit check are kept as `Result` errors.
- `str(user_id)` in `telegram_id`, and the `or ""` for a missing registration time, are text rendering and are not modelled.
- `avg_rating` is a stored float and is never computed, so it is not modelled.
- DemoApi.GetLeaderboard requires `0 <= limit`. Python's slice with a negative limit drops agents from the end, and the model does not cover it.
- `datetime.now()` is not modelled. Every timestamp is a number passed in by the caller.
- Concurrency between the bot process and the API on the shared database is not modelled, because it is not a sequential property. Each commit is one state transition.
- src/api/vercel.py returns constant stub responses. src/bot/config.py reads the environment. The Hardhat deployment scripts only call external services.
- `update_user_score` and `update_user_tasks` are never called from a handler in `src/bot/main.py`. They are modelled as the ledger's score and task writers all the same.
- SQLite stores INTEGER columns in 64 bits. Python's `sqlite3` raises `OverflowError` for a `score_change` outside that range, and SQLite turns an overflowing `reputation_score + ?` into a REAL. The model's integers are unbounded, so neither failure is modelled.
- Bot.CmdRegister: is one step. The handler sends its reply before the `is_agent` UPDATE, so if sending fails the store is left as Bot.EnsureUser leaves it, a created user who is not an agent. Delivery failures are I/O and are not modelled.
- The query defaults `limit=20` and `task_type="general"` are the constants `DemoApi.DefaultLimit` and `DemoApi.DefaultTaskType`. The operations take both as explicit arguments.
