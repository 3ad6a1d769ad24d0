/** The per-user ledger of `database.py`: one `users` row per Telegram id
    holding the request `balance` and the `total_requests` counter.

    The SQL statements are stated first as functions on the table
    (`Inserted` for INSERT OR IGNORE, `Adjusted` for the guarded UPDATE);
    `UserRepository` and `DatabaseManager` hold the table and their methods
    are proved to perform exactly those updates, each call one atomic step. */
module Ledger {
  import opened Wrappers

  /** Balance of a newly created account (`BotConfig.default_free_requests`). */
  const DefaultFreeRequests: int := 3

  /** The columns of a `users` row this core reads or writes. */
  datatype User = User(balance: int, totalRequests: int)

  /** The `users` table, keyed by `tg_id` (its primary key). */
  type Store = map<int, User>

  /** One `update_balance(tg_id, delta)` call. */
  datatype Update = Update(tgId: int, delta: int)

  /** The row INSERT OR IGNORE writes: the configured free requests and the
      column default 0 for `total_requests`. */
  function NewUser(): (u: User)
    ensures u.balance >= 0 && u.totalRequests == 0
  {
    User(DefaultFreeRequests, 0)
  }

  /** The ledger invariant: no balance and no usage counter is negative. */
  predicate Solvent(s: Store)
  {
    forall id :: id in s ==> s[id].balance >= 0 && s[id].totalRequests >= 0
  }

  /** INSERT OR IGNORE of a new row for `tgId`: an existing row wins. */
  function Inserted(s: Store, tgId: int): (r: Store)
    ensures tgId in r && r.Keys == s.Keys + {tgId}
    ensures tgId in s ==> r == s
    ensures tgId !in s ==> r[tgId] == NewUser()
    ensures forall id :: id in s ==> r[id] == s[id]
  {
    if tgId in s then s else s[tgId := NewUser()]
  }

  /** The WHERE clause of `update_balance`: the row exists and the new
      balance would not be negative. */
  predicate Applies(s: Store, tgId: int, delta: int)
  {
    tgId in s && s[tgId].balance + delta >= 0
  }

  /** The SET clause of `update_balance` on one row. A debit moves the
      debited units from the balance to the usage counter; a credit does not
      count as a request. */
  function Charged(u: User, delta: int): (v: User)
    ensures v.balance == u.balance + delta
    ensures delta <= 0 ==> v.balance + v.totalRequests == u.balance + u.totalRequests
    ensures delta >= 0 ==> v.totalRequests == u.totalRequests
  {
    User(u.balance + delta, u.totalRequests + (if delta < 0 then -delta else 0))
  }

  /** The table after `update_balance(tgId, delta)`: the one matching row is
      charged when the guard holds; otherwise nothing changes. No other row
      is ever touched, and the ledger stays solvent. */
  function Adjusted(s: Store, tgId: int, delta: int): (r: Store)
    ensures r.Keys == s.Keys
    ensures forall id :: id in s && id != tgId ==> r[id] == s[id]
    ensures Applies(s, tgId, delta) ==> r[tgId] == Charged(s[tgId], delta)
    ensures !Applies(s, tgId, delta) ==> r == s
  {
    if Applies(s, tgId, delta) then s[tgId := Charged(s[tgId], delta)] else s
  }

  /** Creating an account keeps the ledger solvent. */
  lemma InsertedKeepsSolvent(s: Store, tgId: int)
    requires Solvent(s)
    ensures Solvent(Inserted(s, tgId))
  {
  }

  /** An update can never make a balance negative: the guard refuses any
      delta that would, and no other row is touched. */
  lemma AdjustedKeepsSolvent(s: Store, tgId: int, delta: int)
    requires Solvent(s)
    ensures Solvent(Adjusted(s, tgId, delta))
  {
  }

  /** Creating an account twice is creating it once. */
  lemma InsertedIdempotent(s: Store, tgId: int)
    ensures Inserted(Inserted(s, tgId), tgId) == Inserted(s, tgId)
  {
  }

  /** A sequence of `update_balance` calls, each committed atomically in turn:
      the order in which concurrent workers' updates reach the table. */
  function Replay(s: Store, ops: seq<Update>): Store
    decreases |ops|
  {
    if ops == [] then s else Replay(Adjusted(s, ops[0].tgId, ops[0].delta), ops[1..])
  }

  /** No interleaving of updates, however they are ordered, makes a balance
      negative or drops an account. */
  lemma {:induction false} ReplayKeepsSolvent(s: Store, ops: seq<Update>)
    requires Solvent(s)
    ensures Solvent(Replay(s, ops))
    ensures Replay(s, ops).Keys == s.Keys
    decreases |ops|
  {
    if ops != [] {
      AdjustedKeepsSolvent(s, ops[0].tgId, ops[0].delta);
      ReplayKeepsSolvent(Adjusted(s, ops[0].tgId, ops[0].delta), ops[1..]);
    }
  }

  predicate AllDebits(ops: seq<Update>)
  {
    forall i :: 0 <= i < |ops| ==> ops[i].delta <= 0
  }

  /** Under debits alone, `balance + total_requests` of every account is
      conserved: every unit taken from a balance is counted as used, and the
      usage counter never decreases. */
  lemma {:induction false} DebitsConserveUnits(s: Store, ops: seq<Update>)
    requires AllDebits(ops)
    ensures Replay(s, ops).Keys == s.Keys
    ensures forall id :: id in s ==>
              Replay(s, ops)[id].balance + Replay(s, ops)[id].totalRequests
              == s[id].balance + s[id].totalRequests
              && Replay(s, ops)[id].totalRequests >= s[id].totalRequests
    decreases |ops|
  {
    if ops != [] {
      var s1 := Adjusted(s, ops[0].tgId, ops[0].delta);
      assert AllDebits(ops[1..]) by {
        forall i | 0 <= i < |ops[1..]| ensures ops[1..][i].delta <= 0 {
          assert ops[1..][i] == ops[i + 1];
        }
      }
      DebitsConserveUnits(s1, ops[1..]);
    }
  }

  /** `n` requests of one user each calling `ensure_sufficient_balance`
      (a debit of 1) in turn: the final table and how many debits succeeded. */
  function DebitRun(s: Store, tgId: int, n: nat): (Store, nat)
  {
    if n == 0 then (s, 0)
    else
      var next := DebitRun(Adjusted(s, tgId, -1), tgId, n - 1);
      (next.0, next.1 + (if Applies(s, tgId, -1) then 1 else 0))
  }

  function Min(a: int, b: int): int
  {
    if a <= b then a else b
  }

  /** However many requests race for one account, exactly
      `min(n, balance)` debits succeed, and the balance ends at the
      starting balance minus that number, never below zero. */
  lemma {:induction false} DebitRunGrantsAtMostBalance(s: Store, tgId: int, n: nat)
    requires tgId in s && s[tgId].balance >= 0
    ensures tgId in DebitRun(s, tgId, n).0
    ensures DebitRun(s, tgId, n).1 == Min(n, s[tgId].balance)
    ensures DebitRun(s, tgId, n).0[tgId].balance == s[tgId].balance - Min(n, s[tgId].balance)
  {
    if n > 0 {
      DebitRunGrantsAtMostBalance(Adjusted(s, tgId, -1), tgId, n - 1);
    }
  }

  /** `UserRepository` over the `users` table. */
  class UserRepository {
    var users: Store

    ghost predicate Valid()
      reads this
    {
      Solvent(users)
    }

    /** `_init_schema` on the database file: `CREATE TABLE IF NOT EXISTS`
        keeps whatever rows earlier runs stored (none on a new file). */
    constructor (persisted: Store)
      requires Solvent(persisted)
      ensures Valid() && users == persisted
    {
      users := persisted;
    }

    /** `get_user`: the row of `tgId`, or `None` when there is none. */
    method GetUser(tgId: int) returns (r: Option<User>)
      ensures r.Some? <==> tgId in users
      ensures r.Some? ==> r.value == users[tgId]
    {
      if tgId in users {
        r := Some(users[tgId]);
      } else {
        r := None;
      }
    }

    /** `create_user`: INSERT OR IGNORE, then read the row back. An existing
        row is returned unchanged; a new one starts with the free requests.
        The read-back always finds the row, so the source's "Failed to create
        user" error cannot arise here. */
    method CreateUser(tgId: int) returns (u: User)
      requires Valid()
      modifies this
      ensures Valid()
      ensures users == Inserted(old(users), tgId)
      ensures tgId in users && u == users[tgId]
      ensures tgId in old(users) ==> users == old(users) && u == old(users)[tgId]
      ensures tgId !in old(users) ==> u == NewUser()
    {
      InsertedKeepsSolvent(users, tgId);
      if tgId !in users {
        users := users[tgId := NewUser()];
      }
      u := users[tgId];
    }

    /** `update_balance`: one guarded UPDATE; `ok` is `rowcount > 0`. */
    method UpdateBalance(tgId: int, delta: int) returns (ok: bool)
      requires Valid()
      modifies this
      ensures Valid()
      ensures ok <==> Applies(old(users), tgId, delta)
      ensures users == Adjusted(old(users), tgId, delta)
      ensures ok ==> users[tgId].balance == old(users)[tgId].balance + delta
      ensures !ok ==> users == old(users)
    {
      AdjustedKeepsSolvent(users, tgId, delta);
      var rowcount := 0;
      if tgId in users && users[tgId].balance + delta >= 0 {
        users := users[tgId := Charged(users[tgId], delta)];
        rowcount := 1;
      }
      ok := rowcount > 0;
    }
  }

  /** `DatabaseManager`, the façade the bot calls. */
  class DatabaseManager {
    const users: UserRepository

    ghost predicate Valid()
      reads users
    {
      users.Valid()
    }

    /** Opens the database file holding `persisted` and wraps it in a new
        repository. */
    constructor (persisted: Store)
      requires Solvent(persisted)
      ensures Valid() && fresh(users) && users.users == persisted
    {
      users := new UserRepository(persisted);
    }

    /** `get_or_create_user`: read the row, create it only when missing. A
        second call finds the row and changes nothing. */
    method GetOrCreateUser(tgId: int) returns (u: User)
      requires Valid()
      modifies users
      ensures Valid()
      ensures users.users == Inserted(old(users.users), tgId)
      ensures u == users.users[tgId]
      ensures tgId in old(users.users) ==> users.users == old(users.users)
    {
      var user := users.GetUser(tgId);
      if user.Some? {
        return user.value;
      }
      u := users.CreateUser(tgId);
    }

    /** `ensure_sufficient_balance`: exactly `update_balance(tgId, -cost)`. */
    method EnsureSufficientBalance(tgId: int, cost: int := 1) returns (ok: bool)
      requires Valid()
      modifies users
      ensures Valid()
      ensures ok <==> Applies(old(users.users), tgId, -cost)
      ensures users.users == Adjusted(old(users.users), tgId, -cost)
    {
      ok := users.UpdateBalance(tgId, -cost);
    }
  }
}
