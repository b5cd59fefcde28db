/** The ledger invariant over whole histories: every write the bot and the SQL
    API can make, replayed in order from the empty tables. */
module Audit {
  import opened Wrappers
  import opened Ledger
  import Bot
  import SqlApi

  /** One write against the shared tables. */
  datatype Event =
    | Touch(id: int, username: Option<string>, firstName: string, now: nat)     // the `get_user`/`create_user` guard of every handler
    | Register(id: int, username: Option<string>, firstName: string, now: nat)  // `/register`
    | AddScore(id: int, delta: int, reason: string, now: nat)                  // `update_user_score`
    | AddTask(id: int)                                                          // `update_user_tasks`
    | ApiUpdate(id: int, delta: int, reason: string, now: nat)                 // `POST /reputation/update`

  function Apply(st: Store, e: Event): Store {
    match e
    case Touch(id, username, firstName, now) => Bot.EnsureUser(st, id, username, firstName, now)
    case Register(id, username, firstName, now) => Bot.CmdRegister(st, id, username, firstName, now)
    case AddScore(id, delta, reason, now) => Bot.UpdateUserScore(st, id, delta, reason, now)
    case AddTask(id) => Bot.UpdateUserTasks(st, id)
    case ApiUpdate(id, delta, reason, now) =>
      match SqlApi.UpdateReputation(st, id, delta, reason, now)
      case Ok(u) => u.store
      case Err(_) => st
  }

  function Replay(st: Store, es: seq<Event>): Store
    decreases |es|
  {
    if |es| == 0 then st else Replay(Apply(st, es[0]), es[1..])
  }

  /** `update_user_score` is only ever called for a user that exists. */
  predicate Allowed(st: Store, e: Event) {
    e.AddScore? ==> HasUser(st.users, e.id)
  }

  predicate AllowedRun(st: Store, es: seq<Event>)
    decreases |es|
  {
    |es| == 0 || (Allowed(st, es[0]) && AllowedRun(Apply(st, es[0]), es[1..]))
  }

  /** Every allowed write keeps the ledger invariant. */
  lemma ApplyKeepsValid(st: Store, e: Event)
    requires Valid(st) && Allowed(st, e)
    ensures Valid(Apply(st, e))
  {
    match e
    case Touch(id, username, firstName, now) => Bot.EnsureUserPreservesValid(st, id, username, firstName, now);
    case Register(id, username, firstName, now) => Bot.CmdRegisterPreservesValid(st, id, username, firstName, now);
    case AddScore(id, delta, reason, now) => Bot.UpdateUserScorePreservesValid(st, id, delta, reason, now);
    case AddTask(id) => Bot.UpdateUserTasksPreservesValid(st, id);
    case ApiUpdate(id, delta, reason, now) => SqlApi.UpdateReputationPreservesValid(st, id, delta, reason, now);
  }

  lemma {:induction false} ReplayKeepsValid(st: Store, es: seq<Event>)
    requires Valid(st) && AllowedRun(st, es)
    ensures Valid(Replay(st, es))
    decreases |es|
  {
    if |es| > 0 {
      ApplyKeepsValid(st, es[0]);
      ReplayKeepsValid(Apply(st, es[0]), es[1..]);
    }
  }

  /** Starting from empty tables, as long as `update_user_score` is only called
      for existing users, every user's score is the sum of its log changes. */
  lemma ScoreIsLogSum(es: seq<Event>, i: int)
    requires AllowedRun(Empty, es)
    requires 0 <= i < |Replay(Empty, es).users|
    ensures Replay(Empty, es).users[i].score == LogSum(Replay(Empty, es).log, Replay(Empty, es).users[i].id)
  {
    ReplayKeepsValid(Empty, es);
  }

  /** Without that discipline the invariant fails: a score change logged for an
      unknown user, followed by that user's first contact, leaves a user with
      score 0 whose log changes sum to 5. */
  lemma OrphanBreaksLedger()
    ensures !ScoresMatchLog(Replay(Empty, [AddScore(7, 5, "bonus", 1), Touch(7, None, "Ann", 2)]))
  {
    var s1 := Apply(Empty, AddScore(7, 5, "bonus", 1));
    assert s1.users == [];
    assert s1.log == [LogEntry(7, 5, "bonus", 1)];
    var s2 := Apply(s1, Touch(7, None, "Ann", 2));
    assert s2.users == [Bot.NewUser(7, None, "Ann", 2)];
    assert LogSum(s2.log, 7) == 5;
    var es := [AddScore(7, 5, "bonus", 1), Touch(7, None, "Ann", 2)];
    assert Replay(Empty, es) == Replay(s1, es[1..]);
    assert es[1..][1..] == [];
  }

  /** The bot's "tasks x 10" breakdown line and the API's `task_score` agree
      for every existing user. */
  lemma TaskPointsAgree(st: Store, id: int, username: Option<string>, firstName: string, now: nat)
    requires HasUser(st.users, id)
    ensures SqlApi.GetReputation(st, id).Ok?
    ensures Bot.CmdScore(st, id, username, firstName, now).1.taskPoints == SqlApi.GetReputation(st, id).value.taskScore
  {
  }
}
