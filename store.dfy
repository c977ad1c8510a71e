/** The database as the routes see it, and the routes that change it:
    POST /api/tokens (the order transaction), PATCH /api/tokens/stall,
    POST /api/auth/register and POST /api/admin, plus the balance read of
    GET /api/users/balance. Each route is a function from the database
    before to its reply and the database after; the class Store carries
    out the same steps on its fields. */
module WalletStore {
  import opened Common
  import opened Domain
  import opened Ledger
  import opened Auth
  import opened Admin

  /** The rows of the three tables the routes write, and the next value of
      the tokens id sequence. */
  datatype Db = Db(users: map<string, UserRow>, tokens: seq<Token>, nextId: int)

  /** Token numbers run 1, 2, ... per stall; ids grow with insertion and
      stay below the sequence; no two usernames differ only in case. */
  ghost predicate DbValid(db: Db) {
    DenseTokenNumbers(db.tokens) && IdsBelow(db.tokens, db.nextId) && NamesCaseUnique(db.users)
  }

  /** A route's reply and the database after it. */
  datatype Outcome<T> = Outcome(reply: Result<T, ApiError>, db: Db)

  // ---------------------------------------------------------------------
  // POST /api/tokens
  // ---------------------------------------------------------------------

  /** The statement of the order transaction at which the database fails,
      if any; a failure anywhere makes `transaction` roll back. */
  datatype DbFault = NoFault | FailAtLock | FailAtDebit | FailAtNumber | FailAtInsert | FailAtCommit

  /** `{ token_no, new_balance }`. */
  datatype OrderReceipt = OrderReceipt(tokenNo: int, newBalance: int)

  /** The checks that run before the transaction, in their order: the
      session, the fields, the user row, the block flag, the PIN. On
      success, the username the order is charged to. */
  function OrderPrecheck(session: Option<SessionPayload>, req: OrderRequest, users: map<string, UserRow>,
                         verifyPin: (string, string) -> bool): (r: Result<string, ApiError>)
    ensures r.Ok? ==> session.Some? && session.value.UserSession? && r.value == session.value.username
                      && r.value in users && OrderFieldsPresent(req)
  {
    if !(session.Some? && session.value.UserSession?) then Err(Unauthorized)
    else if !OrderFieldsPresent(req) then Err(MissingFields)
    else
      var u := session.value.username;
      if u !in users then Err(UserNotFound)
      else if users[u].blocked then Err(AccountBlocked)
      else if !verifyPin(req.pin, users[u].pinHash) then Err(WrongPin)
      else Ok(u)
  }

  /** The row the INSERT adds. */
  function NewToken(db: Db, u: string, req: OrderRequest): Token
    requires req.items.Some?
  {
    Token(db.nextId, NextTokenNo(db.tokens, req.stallId), req.stallId, req.stallName,
          u, req.items.value, req.total, Pending)
  }

  /** The order transaction once the checks have passed. A failure inside
      it, including the thrown INSUFFICIENT, restores the users and tokens
      rows; the id sequence keeps any value the INSERT drew. */
  function TransactionSpec(db: Db, u: string, req: OrderRequest, fault: DbFault): Outcome<OrderReceipt>
    requires u in db.users && req.items.Some?
  {
    if fault == FailAtLock then Outcome(Err(OrderFailed), db)
    else
      var balance := db.users[u].balance;
      if balance < req.total then Outcome(Err(InsufficientBalance(balance)), db)
      else if fault == NoFault then
        var t := NewToken(db, u, req);
        Outcome(Ok(OrderReceipt(t.tokenNo, balance - req.total)),
                Db(db.users[u := db.users[u].(balance := balance - req.total)], db.tokens + [t], db.nextId + 1))
      else if fault == FailAtCommit then Outcome(Err(OrderFailed), db.(nextId := db.nextId + 1))
      else Outcome(Err(OrderFailed), db)
  }

  /** POST /api/tokens. */
  function PlaceOrderSpec(db: Db, session: Option<SessionPayload>, req: OrderRequest,
                          verifyPin: (string, string) -> bool, fault: DbFault): Outcome<OrderReceipt>
  {
    var pre := OrderPrecheck(session, req, db.users, verifyPin);
    if pre.Err? then Outcome(Err(pre.error), db)
    else TransactionSpec(db, pre.value, req, fault)
  }

  /** The error replies in the order the route produces them. */
  lemma OrderRejections(db: Db, session: Option<SessionPayload>, req: OrderRequest,
                        verifyPin: (string, string) -> bool, fault: DbFault)
    ensures var o := PlaceOrderSpec(db, session, req, verifyPin, fault);
            && (!(session.Some? && session.value.UserSession?) ==> o.reply == Err(Unauthorized))
            && (session.Some? && session.value.UserSession? ==>
                  var u := session.value.username;
                  && (!OrderFieldsPresent(req) ==> o.reply == Err(MissingFields))
                  && (OrderFieldsPresent(req) && u !in db.users ==> o.reply == Err(UserNotFound))
                  && ((OrderFieldsPresent(req) && u in db.users && db.users[u].blocked)
                        ==> o.reply == Err(AccountBlocked))
                  && ((OrderFieldsPresent(req) && u in db.users && !db.users[u].blocked
                       && !verifyPin(req.pin, db.users[u].pinHash)) ==> o.reply == Err(WrongPin))
                  && (OrderPrecheck(session, req, db.users, verifyPin).Ok? ==>
                        && (fault == FailAtLock ==> o.reply == Err(OrderFailed))
                        && ((fault != FailAtLock && db.users[u].balance < req.total)
                              ==> o.reply == Err(InsufficientBalance(db.users[u].balance)))
                        && ((!(db.users[u].balance < req.total) && fault != NoFault)
                              ==> o.reply == Err(OrderFailed))))
  {
  }

  /** An order succeeds exactly when the checks pass, the total is covered
      and the database does not fail; a reply other than success leaves
      every balance and every token as it was. */
  lemma OrderAllOrNothing(db: Db, session: Option<SessionPayload>, req: OrderRequest,
                          verifyPin: (string, string) -> bool, fault: DbFault)
    ensures var o := PlaceOrderSpec(db, session, req, verifyPin, fault);
            var pre := OrderPrecheck(session, req, db.users, verifyPin);
            && (o.reply.Ok? <==> pre.Ok? && fault == NoFault && !(db.users[pre.value].balance < req.total))
            && (o.reply.Err? ==> o.db.users == db.users && o.db.tokens == db.tokens)
            && (o.reply.Err? ==> o.db.nextId == db.nextId || o.db.nextId == db.nextId + 1)
  {
  }

  /** A successful order debits exactly the total from the ordering user
      and touches no other user; the reply's balance is the stored one. */
  lemma OrderDebits(db: Db, session: Option<SessionPayload>, req: OrderRequest,
                    verifyPin: (string, string) -> bool, fault: DbFault)
    ensures var o := PlaceOrderSpec(db, session, req, verifyPin, fault);
            o.reply.Ok? ==>
              var u := session.value.username;
              && u in db.users && o.db.users.Keys == db.users.Keys
              && o.db.users[u] == db.users[u].(balance := db.users[u].balance - req.total)
              && (forall k :: k in db.users && k != u ==> o.db.users[k] == db.users[k])
              && BalanceOf(session, o.db.users) == Ok(o.reply.value.newBalance)
              && db.users[u].balance >= req.total && o.reply.value.newBalance >= 0
  {
  }

  /** A successful order appends one Pending token of the ordering user,
      carrying the next number of its stall, and keeps the earlier rows. */
  lemma OrderAppendsToken(db: Db, session: Option<SessionPayload>, req: OrderRequest,
                          verifyPin: (string, string) -> bool, fault: DbFault)
    requires DbValid(db)
    ensures var o := PlaceOrderSpec(db, session, req, verifyPin, fault);
            o.reply.Ok? ==>
              && |o.db.tokens| == |db.tokens| + 1 && o.db.tokens[..|db.tokens|] == db.tokens
              && o.db.tokens[|db.tokens|].username == session.value.username
              && o.db.tokens[|db.tokens|].stallId == req.stallId
              && o.db.tokens[|db.tokens|].status == Pending
              && o.db.tokens[|db.tokens|].total == req.total
              && o.db.tokens[|db.tokens|].stallName == req.stallName
              && o.db.tokens[|db.tokens|].items == req.items.value
              && o.db.tokens[|db.tokens|].id == db.nextId && o.db.nextId == db.nextId + 1
              && o.db.tokens[|db.tokens|].tokenNo == o.reply.value.tokenNo == CountStall(db.tokens, req.stallId) + 1
  {
    var o := PlaceOrderSpec(db, session, req, verifyPin, fault);
    if o.reply.Ok? {
      DenseNext(db.tokens, req.stallId);
      assert o.db.tokens[..|db.tokens|] == db.tokens;
    }
  }

  /** Money is conserved: what leaves the balances is what the tokens'
      totals record. */
  lemma OrderConservation(db: Db, session: Option<SessionPayload>, req: OrderRequest,
                          verifyPin: (string, string) -> bool, fault: DbFault)
    ensures var o := PlaceOrderSpec(db, session, req, verifyPin, fault);
            SumBalances(o.db.users) + SumTotals(o.db.tokens) == SumBalances(db.users) + SumTotals(db.tokens)
  {
    var o := PlaceOrderSpec(db, session, req, verifyPin, fault);
    if o.reply.Ok? {
      var u := session.value.username;
      SumBalancesUpdate(db.users, u, o.db.users[u]);
      SumTotalsAppend(db.tokens, NewToken(db, u, req));
    }
  }

  lemma OrderKeepsValid(db: Db, session: Option<SessionPayload>, req: OrderRequest,
                        verifyPin: (string, string) -> bool, fault: DbFault)
    requires DbValid(db)
    ensures DbValid(PlaceOrderSpec(db, session, req, verifyPin, fault).db)
  {
    var o := PlaceOrderSpec(db, session, req, verifyPin, fault);
    if o.reply.Ok? {
      DenseAppend(db.tokens, NewToken(db, session.value.username, req));
    }
  }

  /** The balance test trusts the client's total: a negative total passes
      both the field check and the test, and raises the balance. */
  lemma NegativeTotalCredits(verifyPin: (string, string) -> bool)
    requires verifyPin("1234", "h")
    ensures var db := Db(map["asha" := UserRow("UID_0001", 100, false, "h")], [], 1);
            var req := OrderRequest("S1", "Dosa Point", Some([]), -500, "1234");
            var o := PlaceOrderSpec(db, Some(UserSession("asha", "UID_0001")), req, verifyPin, NoFault);
            o.reply == Ok(OrderReceipt(1, 600)) && o.db.users["asha"].balance == 600
  {
    var db := Db(map["asha" := UserRow("UID_0001", 100, false, "h")], [], 1);
    assert NextTokenNo(db.tokens, "S1") == 1;
  }

  // ---------------------------------------------------------------------
  // PATCH /api/tokens/stall
  // ---------------------------------------------------------------------

  /** `RETURNING id, status`. */
  datatype PatchReply = PatchReply(id: int, status: Status)

  /** The owner of a stall sets the status of one of its tokens; a token of
      another stall is "not found". */
  function UpdateStatusSpec(db: Db, session: Option<SessionPayload>, tokenId: int, statusText: string): Outcome<PatchReply> {
    if !(session.Some? && session.value.StallSession?) then Outcome(Err(Unauthorized), db)
    else if tokenId == 0 || ParseStatus(statusText).None? then Outcome(Err(InvalidPatch), db)
    else
      var st := ParseStatus(statusText).value;
      if !HasTarget(db.tokens, tokenId, session.value.stallId) then Outcome(Err(TokenNotFound), db)
      else Outcome(Ok(PatchReply(tokenId, st)), db.(tokens := SetStatusWhere(db.tokens, tokenId, session.value.stallId, st)))
  }

  /** The checks in order: a stall session (401), a non-zero id and a
      known status (400), a token of that stall with that id (404); the
      request succeeds exactly when all of them pass, and answers with the
      id and the parsed status. */
  lemma UpdateStatusOutcome(db: Db, session: Option<SessionPayload>, tokenId: int, statusText: string)
    ensures var o := UpdateStatusSpec(db, session, tokenId, statusText);
            && (!(session.Some? && session.value.StallSession?) ==> o.reply == Err(Unauthorized))
            && ((session.Some? && session.value.StallSession? && (tokenId == 0 || ParseStatus(statusText).None?))
                  ==> o.reply == Err(InvalidPatch))
            && ((session.Some? && session.value.StallSession? && tokenId != 0 && ParseStatus(statusText).Some?
                 && !HasTarget(db.tokens, tokenId, session.value.stallId)) ==> o.reply == Err(TokenNotFound))
            && (o.reply.Ok? <==> session.Some? && session.value.StallSession? && tokenId != 0
                                 && ParseStatus(statusText).Some? && HasTarget(db.tokens, tokenId, session.value.stallId))
            && (o.reply.Ok? ==> o.reply == Ok(PatchReply(tokenId, ParseStatus(statusText).value)))
            && (o.reply.Err? ==> o.db == db)
  {
  }

  /** The status is the only column the route writes: users, the sequence,
      the number of tokens and every other column stay; only rows of the
      session's stall with the given id change; repeating the request
      gives the same answer and changes nothing more. */
  lemma UpdateStatusFrame(db: Db, session: Option<SessionPayload>, tokenId: int, statusText: string)
    ensures var o := UpdateStatusSpec(db, session, tokenId, statusText);
            && o.db.users == db.users && o.db.nextId == db.nextId && |o.db.tokens| == |db.tokens|
            && (forall i :: 0 <= i < |db.tokens| ==>
                  o.db.tokens[i] == (if o.reply.Ok? && Targets(db.tokens[i], tokenId, session.value.stallId)
                                     then db.tokens[i].(status := o.reply.value.status) else db.tokens[i]))
            && (o.reply.Ok? ==> StatusName(o.reply.value.status) == statusText
                                && HasTarget(db.tokens, tokenId, session.value.stallId))
            && UpdateStatusSpec(o.db, session, tokenId, statusText).reply == o.reply
            && UpdateStatusSpec(o.db, session, tokenId, statusText).db == o.db
  {
    var o := UpdateStatusSpec(db, session, tokenId, statusText);
    if o.reply.Ok? {
      var s := session.value.stallId;
      var st := o.reply.value.status;
      forall i | 0 <= i < |db.tokens|
        ensures o.db.tokens[i] == (if Targets(db.tokens[i], tokenId, s) then db.tokens[i].(status := st) else db.tokens[i])
      {
        SetStatusWhereAt(db.tokens, tokenId, s, st, i);
      }
      SetStatusIdempotent(db.tokens, tokenId, s, st);
      var j :| 0 <= j < |db.tokens| && Targets(db.tokens[j], tokenId, s);
      SetStatusWhereAt(db.tokens, tokenId, s, st, j);
      assert Targets(o.db.tokens[j], tokenId, s);
    }
  }

  lemma UpdateStatusKeepsValid(db: Db, session: Option<SessionPayload>, tokenId: int, statusText: string)
    requires DbValid(db)
    ensures DbValid(UpdateStatusSpec(db, session, tokenId, statusText).db)
  {
    var o := UpdateStatusSpec(db, session, tokenId, statusText);
    if o.reply.Ok? {
      SetStatusKeepsInvariants(db.tokens, db.nextId, tokenId, session.value.stallId, o.reply.value.status);
    }
  }

  // ---------------------------------------------------------------------
  // POST /api/auth/register
  // ---------------------------------------------------------------------

  /** The checks, then the insert with balance 0; `insertFails` is a
      database error on the INSERT (500). */
  function RegisterSpec(db: Db, username: string, pin: string, hashPin: string -> string, insertFails: bool): Outcome<string> {
    var check := CheckRegistration(db.users, username, pin);
    if check.Err? then Outcome(Err(check.error), db)
    else if insertFails then Outcome(Err(RegistrationFailed), db)
    else Outcome(Ok(check.value), db.(users := db.users[Trim(username) := RegisteredRow(check.value, hashPin(pin))]))
  }

  /** A registration succeeds exactly when the checks pass and the insert
      does; otherwise nothing changes. Only the users table is written. */
  lemma RegisterOutcome(db: Db, username: string, pin: string, hashPin: string -> string, insertFails: bool)
    ensures var o := RegisterSpec(db, username, pin, hashPin, insertFails);
            && o.db.tokens == db.tokens && o.db.nextId == db.nextId
            && (o.reply.Err? ==> o.db == db)
            && (o.reply.Ok? <==> CheckRegistration(db.users, username, pin).Ok? && !insertFails)
  {
  }

  /** A successful registration adds exactly one row, under the name as
      typed, with the next UID, a zero balance and the PIN's hash. */
  lemma RegisterAdds(db: Db, username: string, pin: string, hashPin: string -> string)
    requires CheckRegistration(db.users, username, pin).Ok?
    ensures var o := RegisterSpec(db, username, pin, hashPin, false);
            && username !in db.users
            && o.db.users == db.users[username := UserRow(MakeUid(|db.users|), 0, false, hashPin(pin))]
            && o.reply == Ok(MakeUid(|db.users|))
            && |o.db.users| == |db.users| + 1
  {
    RegisteredNameIsInput(db.users, username, pin);
  }

  lemma RegisterKeepsValid(db: Db, username: string, pin: string, hashPin: string -> string, insertFails: bool)
    requires DbValid(db)
    ensures DbValid(RegisterSpec(db, username, pin, hashPin, insertFails).db)
  {
    var check := CheckRegistration(db.users, username, pin);
    if check.Err? {
      assert RegisterSpec(db, username, pin, hashPin, insertFails).db == db;
    } else if insertFails {
      assert RegisterSpec(db, username, pin, hashPin, insertFails).db == db;
    } else {
      RegisteredNameIsInput(db.users, username, pin);
      RegistrationKeepsNamesUnique(db.users, username, pin, hashPin(pin));
    }
  }

  // ---------------------------------------------------------------------
  // POST /api/admin
  // ---------------------------------------------------------------------

  /** The SET clauses of the admin updates. */
  datatype RowChange = NewBalance(balance: int) | NewBlock | NewUnblock(pinHash: string)

  function Apply(row: UserRow, c: RowChange): (r: UserRow)
    ensures r.uid == row.uid
  {
    match c
    case NewBalance(b) => row.(balance := b)
    case NewBlock => row.(blocked := true)
    case NewUnblock(h) => row.(blocked := false, pinHash := h)
  }

  /** `UPDATE users SET ... WHERE username = $u`: the row of u, if there is
      one, takes the change; without such a row nothing changes. */
  function UpdateUser(users: map<string, UserRow>, u: string, c: RowChange): (r: map<string, UserRow>)
    ensures r.Keys == users.Keys
    ensures forall k :: k in users && k != u ==> r[k] == users[k]
    ensures u in users ==> r[u] == Apply(users[u], c)
  {
    if u in users then users[u := Apply(users[u], c)] else users
  }

  /** The admin check, then the action. Only `topup` looks the user up
      first; the other updates of a missing user change nothing and still
      answer ok. A success carries `new_balance` for a top-up only. */
  function AdminPostSpec(db: Db, session: Option<SessionPayload>, action: string, username: string,
                         amount: int, newPin: string, hashPin: string -> string): Outcome<Option<int>> {
    if !IsAdmin(session) then Outcome(Err(Unauthorized), db)
    else match ParseAction(action)
      case None => Outcome(Err(UnknownAction), db)
      case Some(Topup) =>
        if username !in db.users then Outcome(Err(UserNotFound), db)
        else
          var b := db.users[username].balance + amount;
          Outcome(Ok(Some(b)), db.(users := UpdateUser(db.users, username, NewBalance(b))))
      case Some(SetBalance) => Outcome(Ok(None), db.(users := UpdateUser(db.users, username, NewBalance(amount))))
      case Some(Zero) => Outcome(Ok(None), db.(users := UpdateUser(db.users, username, NewBalance(0))))
      case Some(Block) => Outcome(Ok(None), db.(users := UpdateUser(db.users, username, NewBlock)))
      case Some(Unblock) =>
        if !IsFourDigits(newPin) then Outcome(Err(InvalidPin), db)
        else Outcome(Ok(None), db.(users := UpdateUser(db.users, username, NewUnblock(hashPin(newPin)))))
  }

  /** The admin actions touch only the users table, keep its set of names,
      and change nothing on an error. */
  lemma AdminPostFrame(db: Db, session: Option<SessionPayload>, action: string, username: string,
                       amount: int, newPin: string, hashPin: string -> string)
    ensures var o := AdminPostSpec(db, session, action, username, amount, newPin, hashPin);
            && o.db.tokens == db.tokens && o.db.nextId == db.nextId
            && o.db.users.Keys == db.users.Keys
            && (forall k :: k in db.users && k != username ==> o.db.users[k] == db.users[k])
            && (o.reply.Err? ==> o.db == db)
            && (!IsAdmin(session) ==> o.reply == Err(Unauthorized))
            && (IsAdmin(session) && ParseAction(action).None? ==> o.reply == Err(UnknownAction))
  {
  }

  lemma AdminPostKeepsValid(db: Db, session: Option<SessionPayload>, action: string, username: string,
                            amount: int, newPin: string, hashPin: string -> string)
    requires DbValid(db)
    ensures DbValid(AdminPostSpec(db, session, action, username, amount, newPin, hashPin).db)
  {
    AdminPostFrame(db, session, action, username, amount, newPin, hashPin);
  }

  /** A top-up adds the amount to the stored balance and answers with the
      sum, which the balance route then reports. */
  lemma TopupAdds(db: Db, session: Option<SessionPayload>, username: string, amount: int,
                  newPin: string, hashPin: string -> string, uid: string)
    requires IsAdmin(session) && username in db.users
    ensures var o := AdminPostSpec(db, session, "topup", username, amount, newPin, hashPin);
            && o.reply == Ok(Some(db.users[username].balance + amount))
            && o.db.users[username] == db.users[username].(balance := db.users[username].balance + amount)
            && BalanceOf(Some(UserSession(username, uid)), o.db.users) == Ok(db.users[username].balance + amount)
  {
  }

  /** A top-up of a name with no row is a 404 and changes nothing. */
  lemma TopupUnknownUser(db: Db, session: Option<SessionPayload>, username: string, amount: int,
                         newPin: string, hashPin: string -> string)
    requires IsAdmin(session) && username !in db.users
    ensures AdminPostSpec(db, session, "topup", username, amount, newPin, hashPin) == Outcome(Err(UserNotFound), db)
  {
  }

  /** `set_balance` and `zero` make the balance the given value, keep the
      rest of the row, and answer ok without a new balance. */
  lemma SetBalanceSets(db: Db, session: Option<SessionPayload>, username: string, amount: int,
                       newPin: string, hashPin: string -> string, uid: string)
    requires IsAdmin(session) && username in db.users
    ensures var o := AdminPostSpec(db, session, "set_balance", username, amount, newPin, hashPin);
            && o.reply == Ok(None)
            && o.db.users[username] == db.users[username].(balance := amount)
            && BalanceOf(Some(UserSession(username, uid)), o.db.users) == Ok(amount)
    ensures var o := AdminPostSpec(db, session, "zero", username, amount, newPin, hashPin);
            && o.reply == Ok(None)
            && o.db.users[username] == db.users[username].(balance := 0)
            && BalanceOf(Some(UserSession(username, uid)), o.db.users) == Ok(0)
  {
  }

  /** `block` sets the flag of the named row and nothing else. */
  lemma BlockRow(db: Db, session: Option<SessionPayload>, username: string, amount: int,
                 newPin: string, hashPin: string -> string)
    requires IsAdmin(session) && username in db.users && DbValid(db)
    ensures var o := AdminPostSpec(db, session, "block", username, amount, newPin, hashPin);
            && o.reply == Ok(None)
            && DbValid(o.db) && username in o.db.users
            && o.db.users[username] == db.users[username].(blocked := true)
  {
    AdminPostKeepsValid(db, session, "block", username, amount, newPin, hashPin);
  }

  /** After `block`, the user can neither order nor log in, whatever the PIN. */
  lemma BlockLocksOut(db: Db, session: Option<SessionPayload>, username: string, amount: int,
                      newPin: string, hashPin: string -> string,
                      uid: string, req: OrderRequest, verifyPin: (string, string) -> bool, fault: DbFault, typed: string)
    requires IsAdmin(session) && username in db.users && DbValid(db)
    requires OrderFieldsPresent(req)
    requires typed != "" && Lower(Trim(typed)) == Lower(username) && req.pin != ""
    ensures var db' := AdminPostSpec(db, session, "block", username, amount, newPin, hashPin).db;
            && PlaceOrderSpec(db', Some(UserSession(username, uid)), req, verifyPin, fault).reply == Err(AccountBlocked)
            && UserLogin(db'.users, typed, req.pin, verifyPin) == Err(AccountBlocked)
  {
    BlockRow(db, session, username, amount, newPin, hashPin);
    var db' := AdminPostSpec(db, session, "block", username, amount, newPin, hashPin).db;
    UserLoginUnique(db'.users, typed, req.pin, verifyPin, username);
  }

  /** `unblock` with a four-digit PIN clears the flag and stores the new
      PIN's hash, and nothing else. */
  lemma UnblockRow(db: Db, session: Option<SessionPayload>, username: string, amount: int,
                   newPin: string, hashPin: string -> string)
    requires IsAdmin(session) && username in db.users && DbValid(db)
    requires IsFourDigits(newPin)
    ensures var o := AdminPostSpec(db, session, "unblock", username, amount, newPin, hashPin);
            && o.reply == Ok(None)
            && DbValid(o.db) && username in o.db.users
            && o.db.users[username] == db.users[username].(blocked := false, pinHash := hashPin(newPin))
  {
    AdminPostKeepsValid(db, session, "unblock", username, amount, newPin, hashPin);
  }

  /** An update of a name with no row touches no row and still answers ok:
      `set_balance`, `zero`, `block`, and `unblock` with a four-digit PIN. */
  lemma AdminUpdateMissingUser(db: Db, session: Option<SessionPayload>, username: string, amount: int,
                               newPin: string, hashPin: string -> string)
    requires IsAdmin(session) && username !in db.users
    ensures AdminPostSpec(db, session, "set_balance", username, amount, newPin, hashPin) == Outcome(Ok(None), db)
    ensures AdminPostSpec(db, session, "zero", username, amount, newPin, hashPin) == Outcome(Ok(None), db)
    ensures AdminPostSpec(db, session, "block", username, amount, newPin, hashPin) == Outcome(Ok(None), db)
    ensures IsFourDigits(newPin) ==>
              AdminPostSpec(db, session, "unblock", username, amount, newPin, hashPin) == Outcome(Ok(None), db)
  {
  }

  /** `unblock` with a four-digit PIN lets the user log in again with that
      PIN, provided bcrypt accepts a PIN against its own hash. */
  lemma UnblockRestores(db: Db, session: Option<SessionPayload>, username: string, amount: int,
                        newPin: string, hashPin: string -> string, verifyPin: (string, string) -> bool, typed: string)
    requires IsAdmin(session) && username in db.users && DbValid(db)
    requires IsFourDigits(newPin) && verifyPin(newPin, hashPin(newPin))
    requires typed != "" && Lower(Trim(typed)) == Lower(username)
    ensures var db' := AdminPostSpec(db, session, "unblock", username, amount, newPin, hashPin).db;
            UserLogin(db'.users, typed, newPin, verifyPin)
              == Ok(LoginReply(UserSession(username, db.users[username].uid), db.users[username].balance))
  {
    UnblockRow(db, session, username, amount, newPin, hashPin);
    var db' := AdminPostSpec(db, session, "unblock", username, amount, newPin, hashPin).db;
    UserLoginUnique(db'.users, typed, newPin, verifyPin, username);
  }

  /** An unblock with a PIN that is not four digits is refused. */
  lemma UnblockNeedsFourDigits(db: Db, session: Option<SessionPayload>, username: string, amount: int,
                               newPin: string, hashPin: string -> string)
    requires IsAdmin(session) && !IsFourDigits(newPin)
    ensures AdminPostSpec(db, session, "unblock", username, amount, newPin, hashPin) == Outcome(Err(InvalidPin), db)
  {
  }

  // ---------------------------------------------------------------------
  // GET /api/users/balance
  // ---------------------------------------------------------------------

  function BalanceOf(session: Option<SessionPayload>, users: map<string, UserRow>): (r: Result<int, ApiError>)
    ensures r.Ok? <==> session.Some? && session.value.UserSession? && session.value.username in users
    ensures r.Ok? ==> r.value == users[session.value.username].balance
    ensures r.Err? ==> r == Err(Unauthorized) || r == Err(UserNotFound)
    ensures !(session.Some? && session.value.UserSession?) ==> r == Err(Unauthorized)
  {
    if !(session.Some? && session.value.UserSession?) then Err(Unauthorized)
    else if session.value.username !in users then Err(UserNotFound)
    else Ok(users[session.value.username].balance)
  }

  // ---------------------------------------------------------------------
  // The store
  // ---------------------------------------------------------------------

  class Store {
    /** The users table, keyed by the exact username. */
    var users: map<string, UserRow>
    /** The tokens table in insertion (created_at) order. */
    var tokens: seq<Token>
    /** The next value of the tokens id sequence. */
    var nextId: int

    function State(): Db
      reads this
    {
      Db(users, tokens, nextId)
    }

    ghost predicate Valid()
      reads this
    {
      DbValid(State())
    }

    constructor ()
      ensures Valid()
      ensures State() == Db(map[], [], 1)
    {
      users := map[];
      tokens := [];
      nextId := 1;
    }

    /** POST /api/tokens: the checks, then the transaction. */
    method PlaceOrder(session: Option<SessionPayload>, req: OrderRequest,
                      verifyPin: (string, string) -> bool, fault: DbFault)
      returns (r: Result<OrderReceipt, ApiError>)
      requires Valid()
      modifies this
      ensures Valid()
      ensures Outcome(r, State()) == PlaceOrderSpec(old(State()), session, req, verifyPin, fault)
    {
      OrderKeepsValid(State(), session, req, verifyPin, fault);
      var pre := OrderPrecheck(session, req, users, verifyPin);
      if pre.Err? {
        return Err(pre.error);
      }
      r := RunTransaction(pre.value, req, fault);
    }

    /** The body of `transaction()`, statement by statement, with the
        snapshot that ROLLBACK restores. */
    method RunTransaction(u: string, req: OrderRequest, fault: DbFault) returns (r: Result<OrderReceipt, ApiError>)
      requires u in users && req.items.Some?
      modifies this
      ensures Outcome(r, State()) == TransactionSpec(old(State()), u, req, fault)
    {
      // BEGIN
      var savedUsers, savedTokens := users, tokens;
      if fault == FailAtLock {
        r := Err(OrderFailed);
      } else {
        var balance := users[u].balance;
        if balance < req.total {
          r := Err(InsufficientBalance(balance));
        } else if fault == FailAtDebit {
          r := Err(OrderFailed);
        } else {
          users := users[u := users[u].(balance := users[u].balance - req.total)];
          if fault == FailAtNumber {
            r := Err(OrderFailed);
          } else {
            var tokenNo := NextTokenNo(tokens, req.stallId);
            if fault == FailAtInsert {
              r := Err(OrderFailed);
            } else {
              tokens := tokens + [Token(nextId, tokenNo, req.stallId, req.stallName, u, req.items.value, req.total, Pending)];
              nextId := nextId + 1;
              if fault == FailAtCommit {
                r := Err(OrderFailed);
              } else {
                r := Ok(OrderReceipt(tokenNo, balance - req.total));
              }
            }
          }
        }
      }
      if r.Err? {
        // ROLLBACK
        users, tokens := savedUsers, savedTokens;
      }
    }

    /** PATCH /api/tokens/stall. */
    method UpdateStatus(session: Option<SessionPayload>, tokenId: int, statusText: string)
      returns (r: Result<PatchReply, ApiError>)
      requires Valid()
      modifies this
      ensures Valid()
      ensures Outcome(r, State()) == UpdateStatusSpec(old(State()), session, tokenId, statusText)
    {
      UpdateStatusKeepsValid(State(), session, tokenId, statusText);
      if !(session.Some? && session.value.StallSession?) {
        return Err(Unauthorized);
      }
      var st := ParseStatus(statusText);
      if tokenId == 0 || st.None? {
        return Err(InvalidPatch);
      }
      var stallId := session.value.stallId;
      if !HasTarget(tokens, tokenId, stallId) {
        return Err(TokenNotFound);
      }
      tokens := SetStatusWhere(tokens, tokenId, stallId, st.value);
      r := Ok(PatchReply(tokenId, st.value));
    }

    /** POST /api/auth/register. */
    method Register(username: string, pin: string, hashPin: string -> string, insertFails: bool)
      returns (r: Result<string, ApiError>)
      requires Valid()
      modifies this
      ensures Valid()
      ensures Outcome(r, State()) == RegisterSpec(old(State()), username, pin, hashPin, insertFails)
    {
      RegisterKeepsValid(State(), username, pin, hashPin, insertFails);
      var check := CheckRegistration(users, username, pin);
      if check.Err? {
        return Err(check.error);
      }
      if insertFails {
        return Err(RegistrationFailed);
      }
      users := users[Trim(username) := RegisteredRow(check.value, hashPin(pin))];
      r := Ok(check.value);
    }

    /** POST /api/admin. */
    method AdminPost(session: Option<SessionPayload>, action: string, username: string, amount: int,
                     newPin: string, hashPin: string -> string)
      returns (r: Result<Option<int>, ApiError>)
      requires Valid()
      modifies this
      ensures Valid()
      ensures Outcome(r, State()) == AdminPostSpec(old(State()), session, action, username, amount, newPin, hashPin)
    {
      AdminPostKeepsValid(State(), session, action, username, amount, newPin, hashPin);
      if !IsAdmin(session) {
        return Err(Unauthorized);
      }
      match ParseAction(action)
      case None =>
        r := Err(UnknownAction);
      case Some(Topup) =>
        if username !in users {
          return Err(UserNotFound);
        }
        var b := users[username].balance + amount;
        users := UpdateUser(users, username, NewBalance(b));
        r := Ok(Some(b));
      case Some(SetBalance) =>
        users := UpdateUser(users, username, NewBalance(amount));
        r := Ok(None);
      case Some(Zero) =>
        users := UpdateUser(users, username, NewBalance(0));
        r := Ok(None);
      case Some(Block) =>
        users := UpdateUser(users, username, NewBlock);
        r := Ok(None);
      case Some(Unblock) =>
        if !IsFourDigits(newPin) {
          return Err(InvalidPin);
        }
        var h := hashPin(newPin);
        users := UpdateUser(users, username, NewUnblock(h));
        r := Ok(None);
    }
  }
}
