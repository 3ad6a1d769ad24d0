/** `MessageHandler.handle_text_message`: the balance-gated request path.

    Telegram I/O is reduced to the returned `Outcome`. The gateway's answer
    is an input (`ProviderResult`). So are two things the real system
    leaves to its environment. `interleaved` is an update that a concurrent
    worker commits while this request waits on the gateway, between the
    balance check and the debit. `fault` is a SQLite failure, which
    `get_cursor` turns into `DatabaseError` after a rollback.

    `Handle` states the whole step as a function of the table before it;
    `HandleTextMessage` performs it on a `DatabaseManager` and is proved to
    agree. The lemmas below are about `Handle`. */
module Handler {
  import opened Wrappers
  import opened PyText
  import opened Ledger
  import opened Gateway

  /** The one terminal result of a text message. `Unhandled` is the path on
      which `get_or_create_user` raises: the `except DatabaseError` handler
      then reads `processing_msg` before it was assigned, and the handler
      itself fails. */
  datatype Outcome =
    | EmptyText
    | Insufficient(balance: int)
    | AIError(message: string)
    | Fulfilled(text: string, remaining: int)
    | DbError
    | Unhandled

  /** Where a SQLite error (if any) is raised on this request's path. */
  datatype LedgerFault = NoFault | LookupFails | DebitFails

  /** The fixed text `_build_response_text` puts between the reply and the
      remaining balance. */
  const BalanceFooter: string := "\n\n\U{1F4AB} Осталось запросов: "

  /** `_build_response_text`: the reply, the footer, then the remaining
      balance as Python prints it. */
  function BuildResponseText(response: string, remainingBalance: int): (r: string)
    ensures |r| > |response| + |BalanceFooter|
    ensures r[..|response|] == response
  {
    response + BalanceFooter + IntToString(remainingBalance)
  }

  /** The built message starts with the reply verbatim, then the footer, then
      the remaining balance in decimal, which reads back as that number. */
  lemma ResponseTextReadsBack(response: string, remainingBalance: int)
    ensures var r := BuildResponseText(response, remainingBalance);
            && |r| > |response| + |BalanceFooter|
            && r[..|response|] == response
            && r[|response|..|response| + |BalanceFooter|] == BalanceFooter
            && ParseInt(r[|response| + |BalanceFooter|..]) == Some(remainingBalance)
  {
    IntToStringRoundTrip(remainingBalance);
    var r := BuildResponseText(response, remainingBalance);
    assert r[|response| + |BalanceFooter|..] == IntToString(remainingBalance);
  }

  /** The table once an optional concurrent update has been committed. */
  function AfterInterleaving(s: Store, interleaved: Option<Update>): Store
  {
    match interleaved
    case None => s
    case Some(u) => Adjusted(s, u.tgId, u.delta)
  }

  /** The table this request's debit runs against: the account exists, and
      the concurrent update (if any) has been committed. */
  function DebitWindow(s: Store, userId: int, interleaved: Option<Update>): Store
  {
    AfterInterleaving(Inserted(s, userId), interleaved)
  }

  /** One text message from `userId`, against table `s`: the outcome and the
      table afterwards. */
  function Handle(s: Store, userId: int, text: string, provider: ProviderResult,
                  interleaved: Option<Update>, fault: LedgerFault): (r: (Outcome, Store))
    ensures r.0.EmptyText? <==> IsBlank(text)
    ensures r.0.Fulfilled? ==> r.0.remaining >= 0
  {
    if IsBlank(text) then (EmptyText, s)
    else if fault == LookupFails then (Unhandled, s)
    else
      var user := Inserted(s, userId)[userId];
      if user.balance <= 0 then (Insufficient(user.balance), Inserted(s, userId))
      else
        var w := DebitWindow(s, userId, interleaved);
        match GenerateResponse(provider)
        case Failure(msg) => (AIError(msg), w)
        case Success(response) =>
          if fault == DebitFails || !Applies(w, userId, -1) then (DbError, w)
          else (Fulfilled(BuildResponseText(response, user.balance - 1), user.balance - 1),
                Adjusted(w, userId, -1))
  }

  /** `handle_text_message` on the ledger object. */
  method HandleTextMessage(db: DatabaseManager, userId: int, text: string, provider: ProviderResult,
                           interleaved: Option<Update>, fault: LedgerFault)
    returns (outcome: Outcome)
    requires db.Valid()
    modifies db.users
    ensures db.Valid()
    ensures (outcome, db.users.users)
            == Handle(old(db.users.users), userId, text, provider, interleaved, fault)
  {
    ghost var s0 := db.users.users;
    ghost var h := Handle(s0, userId, text, provider, interleaved, fault);
    var userText := Strip(text);
    StripEmptyIff(text);
    if userText == [] {
      assert h == (EmptyText, s0);
      return EmptyText;
    }
    if fault == LookupFails {
      // get_or_create_user raised; its transaction was rolled back
      assert h == (Unhandled, s0);
      return Unhandled;
    }
    var user := db.GetOrCreateUser(userId);
    if user.balance <= 0 {
      assert h == (Insufficient(user.balance), db.users.users);
      return Insufficient(user.balance);
    }
    if interleaved.Some? {
      var committed := db.users.UpdateBalance(interleaved.value.tgId, interleaved.value.delta);
    }
    assert db.users.users == DebitWindow(s0, userId, interleaved);
    var response := GenerateResponse(provider);
    if response.Failure? {
      assert h == (AIError(response.error), db.users.users);
      return AIError(response.error);
    }
    if fault == DebitFails {
      // ensure_sufficient_balance raised; its transaction was rolled back
      assert h == (DbError, db.users.users);
      return DbError;
    }
    var debited := db.EnsureSufficientBalance(userId);
    if debited {
      var finalText := BuildResponseText(response.value, user.balance - 1);
      outcome := Fulfilled(finalText, user.balance - 1);
    } else {
      outcome := DbError;
    }
    assert h == (outcome, db.users.users);
  }

  /** Text that strips to nothing: no ledger access, no gateway call. */
  lemma EmptyTextTouchesNothing(s: Store, userId: int, text: string, provider: ProviderResult,
                                interleaved: Option<Update>, fault: LedgerFault)
    requires IsBlank(text)
    ensures Handle(s, userId, text, provider, interleaved, fault) == (EmptyText, s)
  {
  }

  /** A balance of zero or less is refused before the gateway is consulted:
      the result does not depend on the provider or on any concurrent update,
      and the table changes only by the account's creation. */
  lemma InsufficientSkipsGateway(s: Store, userId: int, text: string,
                                 p1: ProviderResult, i1: Option<Update>,
                                 p2: ProviderResult, i2: Option<Update>, fault: LedgerFault)
    requires !IsBlank(text) && fault != LookupFails
    requires Inserted(s, userId)[userId].balance <= 0
    ensures Handle(s, userId, text, p1, i1, fault)
            == Handle(s, userId, text, p2, i2, fault)
            == (Insufficient(Inserted(s, userId)[userId].balance), Inserted(s, userId))
  {
  }

  /** A new user starts with the free requests, so the first message is
      never refused for balance. */
  lemma NewUserIsServed(s: Store, userId: int, text: string, provider: ProviderResult,
                        interleaved: Option<Update>, fault: LedgerFault)
    requires userId !in s && !IsBlank(text) && fault != LookupFails
    ensures !Handle(s, userId, text, provider, interleaved, fault).0.Insufficient?
  {
  }

  /** No charge on gateway failure: the table is what the debit window holds
      (the account exists, any concurrent update is in), and the outcome
      carries the classified message. */
  lemma GatewayFailureNoCharge(s: Store, userId: int, text: string, provider: ProviderResult,
                               interleaved: Option<Update>, fault: LedgerFault)
    requires Handle(s, userId, text, provider, interleaved, fault).0.AIError?
    ensures Handle(s, userId, text, provider, interleaved, fault).1
            == DebitWindow(s, userId, interleaved)
    ensures GenerateResponse(provider).Failure?
    ensures Handle(s, userId, text, provider, interleaved, fault).0.message
            == MessageOf(CategoryOf(provider).value)
  {
  }

  /** A fulfilled request was charged exactly once: one unit moved from this
      user's balance to their usage counter, on the table of the debit
      window, and no other account changed. */
  lemma FulfilledDebitsOnce(s: Store, userId: int, text: string, provider: ProviderResult,
                            interleaved: Option<Update>, fault: LedgerFault)
    requires Handle(s, userId, text, provider, interleaved, fault).0.Fulfilled?
    ensures var w := DebitWindow(s, userId, interleaved);
            var s' := Handle(s, userId, text, provider, interleaved, fault).1;
            && Applies(w, userId, -1)
            && s' == Adjusted(w, userId, -1)
            && s'[userId].balance == w[userId].balance - 1 >= 0
            && s'[userId].totalRequests == w[userId].totalRequests + 1
            && (forall id :: id in w && id != userId ==> s'[id] == w[id])
  {
  }

  /** The user sees the gateway's stripped reply, followed by the balance
      read before the call minus one. */
  lemma FulfilledShowsReply(s: Store, userId: int, text: string, provider: ProviderResult,
                            interleaved: Option<Update>, fault: LedgerFault)
    requires Handle(s, userId, text, provider, interleaved, fault).0.Fulfilled?
    ensures var o := Handle(s, userId, text, provider, interleaved, fault).0;
            && GenerateResponse(provider).Success?
            && o.text == BuildResponseText(GenerateResponse(provider).value, o.remaining)
            && o.remaining == Inserted(s, userId)[userId].balance - 1 >= 0
  {
  }

  /** A debit that fails after a successful gateway call discards the reply
      and leaves the debit window's table as it was. */
  lemma DebitFailureDiscardsReply(s: Store, userId: int, text: string, provider: ProviderResult,
                                  interleaved: Option<Update>, fault: LedgerFault)
    requires Handle(s, userId, text, provider, interleaved, fault).0 == DbError
    ensures GenerateResponse(provider).Success?
    ensures Handle(s, userId, text, provider, interleaved, fault).1
            == DebitWindow(s, userId, interleaved)
    ensures fault == NoFault ==> !Applies(DebitWindow(s, userId, interleaved), userId, -1)
  {
  }

  /** No message, whatever its outcome and whatever update interleaves
      with it, makes a balance or a usage counter negative. */
  lemma HandleKeepsSolvent(s: Store, userId: int, text: string, provider: ProviderResult,
                           interleaved: Option<Update>, fault: LedgerFault)
    requires Solvent(s)
    ensures Solvent(Handle(s, userId, text, provider, interleaved, fault).1)
  {
    InsertedKeepsSolvent(s, userId);
    if interleaved.Some? {
      AdjustedKeepsSolvent(Inserted(s, userId), interleaved.value.tgId, interleaved.value.delta);
    }
    AdjustedKeepsSolvent(DebitWindow(s, userId, interleaved), userId, -1);
  }

  /** Only a fulfilled request changes the table beyond the account's
      creation and the concurrent update: for every other outcome the table
      afterwards is the one this request's own debit would have run against,
      and a fulfilled request lowers this user's balance by exactly one. */
  lemma ChargedOnlyWhenFulfilled(s: Store, userId: int, text: string, provider: ProviderResult,
                                 interleaved: Option<Update>, fault: LedgerFault)
    ensures var (o, s') := Handle(s, userId, text, provider, interleaved, fault);
            var before := if o.EmptyText? || o.Unhandled? then s
                          else if o.Insufficient? then Inserted(s, userId)
                          else DebitWindow(s, userId, interleaved);
            && (o.Fulfilled? <==> s' != before)
            && (o.Fulfilled? ==> s'[userId].balance == before[userId].balance - 1)
  {
    var (o, s') := Handle(s, userId, text, provider, interleaved, fault);
    if o.Fulfilled? {
      FulfilledDebitsOnce(s, userId, text, provider, interleaved, fault);
      var w := DebitWindow(s, userId, interleaved);
      assert s'[userId].totalRequests == w[userId].totalRequests + 1;
    } else if o.AIError? {
      GatewayFailureNoCharge(s, userId, text, provider, interleaved, fault);
    } else if o == DbError {
      DebitFailureDiscardsReply(s, userId, text, provider, interleaved, fault);
    }
  }

  /** Without a concurrent update, the remaining balance shown to the user is
      the balance stored after the request. */
  lemma RemainingIsStoredBalance(s: Store, userId: int, text: string, provider: ProviderResult,
                                 fault: LedgerFault)
    requires Handle(s, userId, text, provider, None, fault).0.Fulfilled?
    ensures Handle(s, userId, text, provider, None, fault).0.remaining
            == Handle(s, userId, text, provider, None, fault).1[userId].balance
  {
    var w := Inserted(s, userId);
    assert DebitWindow(s, userId, None) == w;
    var (o, s') := Handle(s, userId, text, provider, None, fault);
    assert s' == Adjusted(w, userId, -1);
    assert o.remaining == w[userId].balance - 1;
  }

  /** With a concurrent credit in the window, the shown remaining balance is
      the stale value read before the gateway call: balance 3, a top-up of 5
      lands during the call, the user is told 2 while 7 is stored. */
  lemma RemainingCanBeStale(userId: int, text: string)
    requires !IsBlank(text)
    ensures var s := map[userId := User(3, 0)];
            var (o, s') := Handle(s, userId, text, Completion([Some("hello")]),
                                  Some(Update(userId, 5)), NoFault);
            o.Fulfilled? && o.remaining == 2 && s'[userId].balance == 7
  {
    var s := map[userId := User(3, 0)];
    StrippedIsFixed("hello");
    var w := map[userId := User(8, 0)];
    assert DebitWindow(s, userId, Some(Update(userId, 5))) == w;
    assert Adjusted(w, userId, -1) == map[userId := User(7, 1)];
  }

  /** Two requests race for the last unit. Both read balance 1 and both get
      a reply; the first one's debit commits inside the second one's window.
      The first is fulfilled, the second ends in the database-error outcome,
      and the balance ends at 0, not -1. */
  lemma RaceOnLastUnit(s: Store, userId: int, t1: string, t2: string,
                       p1: ProviderResult, p2: ProviderResult)
    requires userId in s && s[userId].balance == 1
    requires !IsBlank(t1) && !IsBlank(t2)
    requires GenerateResponse(p1).Success? && GenerateResponse(p2).Success?
    ensures var (o1, s1) := Handle(s, userId, t1, p1, None, NoFault);
            var (o2, s2) := Handle(s, userId, t2, p2, Some(Update(userId, -1)), NoFault);
            && o1.Fulfilled? && o1.remaining == 0
            && o2 == DbError
            && s2 == s1
            && s2[userId].balance == 0
  {
  }

  /** A user with balance 3 sends a non-blank message and the gateway answers "hello":
      fulfilled, 2 requests left, and the table agrees. */
  lemma ScenarioServed(userId: int, text: string)
    requires !IsBlank(text)
    ensures var s := map[userId := User(3, 0)];
            var (o, s') := Handle(s, userId, text, Completion([Some("hello")]), None, NoFault);
            o == Fulfilled(BuildResponseText("hello", 2), 2)
            && s' == map[userId := User(2, 1)]
  {
    var s := map[userId := User(3, 0)];
    StrippedIsFixed("hello");
    assert Adjusted(s, userId, -1) == map[userId := User(2, 1)];
  }

  /** Balance 0: refused with that balance, whatever the gateway would have
      said, and nothing changes. */
  lemma ScenarioNoBalance(userId: int, text: string, provider: ProviderResult)
    requires !IsBlank(text)
    ensures var s := map[userId := User(0, 3)];
            Handle(s, userId, text, provider, None, NoFault) == (Insufficient(0), s)
  {
  }

  /** Rate limited while the balance is 3: the high-load message, balance
      still 3. */
  lemma ScenarioRateLimited(userId: int, text: string)
    requires !IsBlank(text)
    ensures var s := map[userId := User(3, 0)];
            Handle(s, userId, text, RateLimitError, None, NoFault) == (AIError(HighLoad), s)
  {
  }
}
