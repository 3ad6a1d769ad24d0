# Telegram_GPT request engine in Dafny

A model of the balance-gated request path of the Telegram_GPT bot. A user's
text message is stripped. The user's account is looked up, and created with
the free requests if it is missing. A request is refused when the balance is
zero or less. Otherwise the prompt goes to the AI gateway, and only after a
successful completion is one request debited with a guarded SQL `UPDATE`.
The user then sees the reply followed by the remaining balance.

Modules:

- `Wrappers` (`wrappers.dfy`): `Option` and `Result`.
- `PyText` (`pytext.dfy`): Python's `str.strip()` and `str(int)`, with
  `ParseInt` as an independent reader of decimal text.
- `Ledger` (`ledger.dfy`): the `users` table of `database.py`.
  - The SQL statements are pure functions on a `map<int, User>`: `Inserted`
    is INSERT OR IGNORE and `Adjusted` is the guarded UPDATE.
  - The classes `UserRepository` and `DatabaseManager` hold the table. Each
    mutating method is proved to perform exactly one of those updates, and
    `GetUser` is proved to change nothing.
  - Lemmas cover solvency, conservation of units under debits, and how many
    of `n` racing debits succeed.
- `Gateway` (`gateway.dfy`): `OpenAIService.generate_response`, reduced to
  how the provider's answer or exception is classified into the stripped
  reply or one of four fixed messages.
- `Handler` (`handler.dfy`): `handle_text_message` and
  `_build_response_text`.
  - The pure function `Handle` gives the outcome and the table afterwards.
  - The method `HandleTextMessage` runs the same steps on a
    `DatabaseManager` and is proved equal to `Handle`.
  - Two environment effects are parameters. A concurrent worker's update can
    commit between the balance check and the debit. A SQLite error can be
    raised in the lookup or in the debit; it is rolled back.

Behaviour of the code worth knowing, modelled as written:

- An empty `choices` list raises the bot's own `OpenAIError` class. That
  class is not `openai.error.OpenAIError`, so only `except Exception` catches
  it, and the user sees "Internal service error"; there is no separate
  empty-response message. A `None` content ends the same way. A
  whitespace-only reply is a success with empty text and is charged
  (`BlankReplyIsSuccess`).
- A debit that loses a race raises `DatabaseError`. The user then gets the
  same generic processing-error outcome as any database failure (`DbError`);
  there is no separate retry outcome.
- When `get_or_create_user` raises, the `except DatabaseError` handler reads
  `processing_msg` before it is assigned, so the handler itself fails. This
  is the `Unhandled` outcome.
- The remaining balance shown to the user is the balance read before the
  gateway call, minus one. It matches the stored balance only when no other
  update commits in between. `RemainingIsStoredBalance` and
  `RemainingCanBeStale` state both cases.

## Model

| member | source | states |
|---|---|---|
| PyText.Strip | bot.py:103 | the stripped text neither starts nor ends with whitespace and is no longer than the input |
| PyText.StripIsSlice | bot.py:103 | what `strip` keeps is one contiguous slice of the input, starting after its leading whitespace, with only whitespace cut away on both sides |
| PyText.StripEmptyIff | bot.py:103-107 | the stripped message is empty exactly when every character is whitespace (both directions) |
| PyText.StrippedIsFixed | bot.py:52 | text with no whitespace at either end is returned unchanged by `strip` |
| PyText.StripIdempotent | bot.py:52 | stripping twice gives the same text as stripping once |
| PyText.NatToString | bot.py:166 | the decimal form of a natural number is non-empty, starts with a digit, and has no leading zero |
| PyText.IntToString | bot.py:166 | `str(n)` is non-empty and starts with a minus sign exactly when `n` is negative |
| PyText.NatToStringDigits | bot.py:166 | the decimal form of a natural number consists of digits only |
| PyText.NatToStringRoundTrip | bot.py:166 | reading the decimal digits back gives the number |
| PyText.IntToStringRoundTrip | bot.py:166 | reading back the text `str(n)` wrote gives `n`, for negative numbers too |
| Ledger.NewUser | database.py:109-113 | a new row starts with a non-negative balance (the configured free requests) and zero requests used |
| Ledger.Inserted | database.py:106-124 | INSERT OR IGNORE: the row exists afterwards; an existing row is kept unchanged; a new row is the default row; no other row changes |
| Ledger.Charged | database.py:128-134 | the SET clause: balance moves by delta; a debit moves the same units into `total_requests`; a credit leaves it unchanged |
| Ledger.Adjusted | database.py:126-136 | the guarded UPDATE: when the row exists and the new balance is non-negative, only that row is charged; otherwise the table is unchanged |
| Ledger.InsertedKeepsSolvent | database.py:106-124 | creating an account never introduces a negative balance or counter |
| Ledger.AdjustedKeepsSolvent | database.py:133 | the WHERE guard means no update can make a balance negative |
| Ledger.InsertedIdempotent | database.py:110 | creating an account twice is the same as creating it once |
| Ledger.ReplayKeepsSolvent | database.py:126-136 | any sequence of committed updates, in any order, keeps every balance and counter non-negative and drops no account |
| Ledger.DebitsConserveUnits | database.py:130-134 | under debits only, `balance + total_requests` of every account is conserved, and usage never decreases |
| Ledger.DebitRunGrantsAtMostBalance | database.py:152-153 | of `n` successive debits of one unit, exactly `min(n, balance)` succeed, and the balance ends at the start value minus that count |
| Ledger.UserRepository.constructor | database.py:69-82 | `CREATE TABLE IF NOT EXISTS` keeps the rows already stored in the database file: the repository starts with exactly the persisted table |
| Ledger.UserRepository.GetUser | database.py:97-104 | returns the row exactly when one exists for the id, and that row |
| Ledger.UserRepository.CreateUser | database.py:106-124 | the table becomes `Inserted` of the old one; the returned row is the stored row; an existing row and the table are unchanged; a new row is the default row |
| Ledger.UserRepository.UpdateBalance | database.py:126-136 | the result is true exactly when the guard holds; the table becomes `Adjusted` of the old one; the ledger stays solvent |
| Ledger.DatabaseManager.constructor | database.py:141-143 | a new manager owns a fresh repository over the persisted table, unchanged |
| Ledger.DatabaseManager.GetOrCreateUser | database.py:145-150 | the account exists afterwards and the stored row is returned; a second call changes nothing |
| Ledger.DatabaseManager.EnsureSufficientBalance | database.py:152-153 | exactly `update_balance(tg_id, -cost)`: succeeds when the balance covers the cost, and then debits it |
| Gateway.GenerateResponse | bot.py:33-68 | success exactly when the provider returned a first choice with content; the reply is that content stripped; every failure carries the message of its category, in the order of the `except` clauses |
| Gateway.MessageIdentifiesCategory | bot.py:54-68 | the four messages are distinct, so each one identifies its failure category |
| Gateway.BlankReplyIsSuccess | bot.py:49-52 | a completion whose content is all whitespace is a success with empty text, not a failure |
| Handler.BuildResponseText | bot.py:164-166 | the message is longer than the reply plus the footer and starts with the reply verbatim; `ResponseTextReadsBack` pins down the rest |
| Handler.ResponseTextReadsBack | bot.py:164-166 | the built message is the reply verbatim, then the balance footer, then the remaining balance, which reads back as that number |
| Handler.Handle | bot.py:101-147 | the whole request as a function of the table before it: the outcome is `EmptyText` exactly when the text is all whitespace, and a fulfilled request never reports a negative remaining balance; the Handler lemmas below state the rest |
| Handler.HandleTextMessage | bot.py:101-147 | performing the handler on the database gives exactly the outcome and table of `Handle`, and the ledger stays solvent |
| Handler.EmptyTextTouchesNothing | bot.py:103-107 | a blank message ends at once and changes nothing |
| Handler.InsufficientSkipsGateway | bot.py:110-113 | a balance of zero or less is refused with that balance; the result does not depend on the gateway or on any concurrent update; only the account's creation is kept |
| Handler.NewUserIsServed | bot.py:110-111 | a user without an account gets the free requests, so their first message is never refused for balance |
| Handler.GatewayFailureNoCharge | bot.py:120-139 | on a gateway failure nobody is charged: the table is the debit window, and the outcome carries the classified message |
| Handler.FulfilledDebitsOnce | bot.py:122-128 | a fulfilled request was debited exactly once: one unit moved from this user's balance to their usage counter, and no other account changed |
| Handler.FulfilledShowsReply | bot.py:120-128 | a fulfilled request shows the stripped gateway reply followed by the balance read before the call minus one, which is non-negative |
| Handler.DebitFailureDiscardsReply | bot.py:122-147 | a database-error outcome follows a successful gateway call, leaves the debit window's table unchanged, and without an injected fault means the guard refused the debit |
| Handler.HandleKeepsSolvent | bot.py:109-131 | no message, whatever its outcome or concurrent update, makes a balance or a counter negative |
| Handler.ChargedOnlyWhenFulfilled | bot.py:109-147 | the table changes, beyond account creation and the concurrent update, exactly when the request is fulfilled (both directions), and then the balance drops by exactly one |
| Handler.RemainingIsStoredBalance | bot.py:122-123 | without a concurrent update, the remaining balance shown is the balance stored afterwards |
| Handler.RemainingCanBeStale | bot.py:110-123 | with a credit of 5 committed during the call on a balance of 3, the user is told 2 while 7 is stored |
| Handler.RaceOnLastUnit | bot.py:110-131 | two requests racing for the last unit: one is fulfilled with 0 left, the other ends in the database-error outcome, and the balance ends at 0, not -1 |
| Handler.ScenarioServed | bot.py:101-128 | balance 3 and reply "hello": fulfilled with the reply, the footer and 2, and the row becomes balance 2 with 1 request used |
| Handler.ScenarioNoBalance | bot.py:110-113 | balance 0: refused with balance 0 whatever the gateway would say, and nothing changes |
| Handler.ScenarioRateLimited | bot.py:58-60 | rate limited with balance 3: the high-load message, and the balance stays 3 |

## Left out

- Telegram I/O (`send_message`, `edit_message_text` and their failures) is reduced to the returned `Outcome`; the Russian user-facing texts other than the balance footer are not modelled.
- The OpenAI HTTP call, its model name, prompt, `max_tokens`, temperature and timeout are left out; its answer or exception is the `ProviderResult` input.
- SQLite plumbing (connections, pragmas, thread-local storage, cursors) is left out; each repository call is one atomic step on the table, and a failure in it is the `LedgerFault` input, rolled back.
- Real concurrency is approximated by at most one update committed between the balance check and the debit; `Replay` and `DebitRun` cover arbitrary sequences of committed updates.
- The `username`, `first_name`, `last_name`, timestamp columns and the `payments` table are not modelled; this path never reads them.
- SQLite's 64-bit integer bounds are not modelled; balances are unbounded integers.
- `handle_start_command`, `_build_welcome_message`, `_send_balance_warning` texts, logging and configuration loading are outside the request path.
- `IsSpace` covers the characters Python's `str.isspace()` accepts; Unicode database lookups are not modelled beyond that set.
- Ledger.UserRepository.constructor: requires the persisted table to be solvent; every table written through `update_balance` is (`ReplayKeepsSolvent`), and a file edited by other means is not modelled.
- Ledger.DatabaseManager.constructor: requires the persisted table to be solvent, for the same reason.
- `database.py` as written cannot be imported: `class DatabaseError(Exception):` has no body (database.py:9-10), and `DatabaseConfig` is used in an annotation without being imported (database.py:14). The model takes what was evidently meant: an empty exception class, and `DatabaseConfig` imported from `config`.
- Ledger.UserRepository.CreateUser: the "Failed to create user" error cannot arise, because the row is always found right after INSERT OR IGNORE.
