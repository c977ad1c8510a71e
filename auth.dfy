/** The three login routes and the validation and UID generation of the
    registration route (the four routes under app/api/auth). The users table is the
    store's map from exact username to row; bcrypt's `compare` is the
    parameter `verifyPin`. */
module Auth {
  import opened Common
  import opened Domain

  // ---------------------------------------------------------------------
  // Registration
  // ---------------------------------------------------------------------

  /** The regular expression `^[a-zA-Z0-9_]{3,}$`. */
  predicate ValidUsername(s: string) {
    |s| >= 3 && forall i :: 0 <= i < |s| ==> IsWordChar(s[i])
  }

  /** `LOWER(username) = LOWER($1)` finds a row. */
  predicate NameTaken(users: map<string, UserRow>, name: string) {
    exists k :: k in users && Lower(k) == Lower(name)
  }

  /** No two stored usernames differ only in letter case. */
  ghost predicate NamesCaseUnique(users: map<string, UserRow>) {
    forall a, b :: a in users && b in users && Lower(a) == Lower(b) ==> a == b
  }

  function DigitChar(d: nat): (c: char)
    requires d < 10
    ensures IsDigit(c) && c as int - '0' as int == d
  {
    ('0' as int + d) as char
  }

  /** `String(n)` for a natural number: its decimal digits, without
      leading zeros. */
  function DecimalString(n: nat): (s: string)
    ensures s != [] && forall i :: 0 <= i < |s| ==> IsDigit(s[i])
    ensures n == 0 <==> s[0] == '0'
    ensures n < 10 <==> |s| == 1
    decreases n
  {
    if n < 10 then [DigitChar(n)] else DecimalString(n / 10) + [DigitChar(n % 10)]
  }

  /** The value of a string of decimal digits. */
  function DigitsValue(s: string): nat
    requires forall i :: 0 <= i < |s| ==> IsDigit(s[i])
  {
    if s == [] then 0
    else
      assert IsDigit(s[|s| - 1]);
      DigitsValue(s[..|s| - 1]) * 10 + (s[|s| - 1] as int - '0' as int)
  }

  lemma {:induction false} DecimalRoundTrip(n: nat)
    ensures DigitsValue(DecimalString(n)) == n
    decreases n
  {
    if n >= 10 {
      DecimalRoundTrip(n / 10);
      var s := DecimalString(n);
      assert s[..|s| - 1] == DecimalString(n / 10);
    }
  }

  /** `s.padStart(width, c)`: pads on the left, never truncates. */
  function PadStart(s: string, width: nat, c: char): (r: string)
    ensures |r| == if |s| >= width then |s| else width
    ensures r[|r| - |s|..] == s
    ensures forall i :: 0 <= i < |r| - |s| ==> r[i] == c
  {
    if |s| >= width then s else seq(width - |s|, _ => c) + s
  }

  /** Leading zeros do not change the value of a digit string. */
  lemma {:induction false} LeadingZeros(z: string, s: string)
    requires forall i :: 0 <= i < |z| ==> z[i] == '0'
    requires forall i :: 0 <= i < |s| ==> IsDigit(s[i])
    ensures DigitsValue(z + s) == DigitsValue(s)
    decreases |s|, |z|
  {
    if s == [] {
      if z != [] {
        assert z + s == z;
        LeadingZeros(z[..|z| - 1], []);
        assert z[..|z| - 1] + [] == z[..|z| - 1];
      }
    } else {
      LeadingZeros(z, s[..|s| - 1]);
      assert (z + s)[..|z + s| - 1] == z + s[..|s| - 1];
    }
  }

  /** ``UID_${String(count + 1).padStart(4, '0')}``. */
  function MakeUid(count: nat): string {
    "UID_" + PadStart(DecimalString(count + 1), 4, '0')
  }

  /** The number a UID of this form carries. */
  function UidNumber(uid: string): nat
    requires |uid| >= 4 && forall i :: 4 <= i < |uid| ==> IsDigit(uid[i])
  {
    DigitsValue(uid[4..])
  }

  /** A UID is "UID_", four or more digits, and reads back as count + 1:
      the number is padded, never truncated. */
  lemma UidRoundTrip(count: nat)
    ensures MakeUid(count)[..4] == "UID_"
    ensures |MakeUid(count)| >= 8
    ensures var d := DecimalString(count + 1);
            |MakeUid(count)| == 4 + (if |d| >= 4 then |d| else 4)
            && MakeUid(count)[|MakeUid(count)| - |d|..] == d
            && forall i :: 4 <= i < |MakeUid(count)| - |d| ==> MakeUid(count)[i] == '0'
    ensures forall i :: 4 <= i < |MakeUid(count)| ==> IsDigit(MakeUid(count)[i])
    ensures UidNumber(MakeUid(count)) == count + 1
  {
    var d := DecimalString(count + 1);
    UidLayout("UID_", d);
    DecimalRoundTrip(count + 1);
  }

  /** Padding a digit string with zeros keeps it all digits and keeps its
      value. */
  lemma PadDigits(d: string)
    requires forall i :: 0 <= i < |d| ==> IsDigit(d[i])
    ensures var p := PadStart(d, 4, '0');
            && (forall i :: 0 <= i < |p| ==> IsDigit(p[i]))
            && DigitsValue(p) == DigitsValue(d)
  {
    var p := PadStart(d, 4, '0');
    var z := p[..|p| - |d|];
    assert |z| == |p| - |d|;
    assert forall i :: 0 <= i < |z| ==> z[i] == '0';
    assert p == z + d;
    LeadingZeros(z, d);
  }

  /** The layout of a four-character prefix followed by a digit string
      padded to four places. */
  lemma UidLayout(pre: string, d: string)
    requires |pre| == 4
    requires forall i :: 0 <= i < |d| ==> IsDigit(d[i])
    ensures var u := pre + PadStart(d, 4, '0');
            && u[..4] == pre
            && |u| == 4 + (if |d| >= 4 then |d| else 4)
            && u[|u| - |d|..] == d
            && (forall i :: 4 <= i < |u| - |d| ==> u[i] == '0')
            && (forall i :: 4 <= i < |u| ==> IsDigit(u[i]))
            && DigitsValue(u[4..]) == DigitsValue(d)
  {
    var p := PadStart(d, 4, '0');
    var u := pre + p;
    PadDigits(d);
    PrefixJoin(pre, p, |d|);
    assert |p| == (if |d| >= 4 then |d| else 4) && p[|p| - |d|..] == d;
    assert u[4..] == p;
  }

  /** How `pre + p` is laid out: the prefix, then `p` position by position,
      and the last k characters of `p` last. */
  lemma PrefixJoin(pre: string, p: string, k: nat)
    requires k <= |p|
    ensures var u := pre + p;
            && |u| == |pre| + |p|
            && u[..|pre|] == pre && u[|pre|..] == p
            && u[|u| - k..] == p[|p| - k..]
            && forall i :: |pre| <= i < |u| ==> u[i] == p[i - |pre|]
  {
    var u := pre + p;
    assert u[|pre|..] == p;
    assert u[|u| - k..] == u[|pre|..][|p| - k..];
  }

  /** Different user counts give different UIDs. */
  lemma UidInjective(a: nat, b: nat)
    requires MakeUid(a) == MakeUid(b)
    ensures a == b
  {
    UidRoundTrip(a);
    UidRoundTrip(b);
  }

  /** A count below 9999 gives a number padded to four digits. */
  lemma UidExamplePadded()
    ensures MakeUid(0) == "UID_0001"
  {
    assert DecimalString(1) == "1";
    assert seq(3, _ => '0') + "1" == "0001";
  }

  /** A longer number is kept whole. */
  lemma UidExampleLong()
    ensures MakeUid(12344) == "UID_12345"
  {
    assert DecimalString(1) == "1";
    assert DecimalString(12) == "12";
    assert DecimalString(123) == "123";
    assert DecimalString(1234) == "1234";
    assert DecimalString(12345) == "12345";
    assert PadStart("12345", 4, '0') == "12345";
  }

  /** The checks of POST /api/auth/register before the insert, in their
      order; on success, the UID the new row gets. */
  function CheckRegistration(users: map<string, UserRow>, username: string, pin: string): (r: Result<string, ApiError>)
    ensures r == Err(MissingFields) <==> username == "" || pin == ""
    ensures r == Err(PinNotFourDigits) <==> username != "" && pin != "" && !IsFourDigits(pin)
    ensures r == Err(InvalidUsername) <==> username != "" && IsFourDigits(pin) && !ValidUsername(username)
    ensures r == Err(UsernameTaken) <==> IsFourDigits(pin) && ValidUsername(username) && NameTaken(users, username)
    ensures r.Ok? <==> IsFourDigits(pin) && ValidUsername(username) && !NameTaken(users, username)
    ensures r.Ok? ==> r.value == MakeUid(|users|)
  {
    if username == "" || pin == "" then Err(MissingFields)
    else if !IsFourDigits(pin) then Err(PinNotFourDigits)
    else if !ValidUsername(username) then Err(InvalidUsername)
    else
      TrimWordChars(username);
      if NameTaken(users, Trim(username)) then Err(UsernameTaken)
      else Ok(MakeUid(|users|))
  }

  /** The stored name is `username.trim()`, which equals the input once the
      regular expression has accepted it. */
  lemma RegisteredNameIsInput(users: map<string, UserRow>, username: string, pin: string)
    requires CheckRegistration(users, username, pin).Ok?
    ensures Trim(username) == username
  {
    TrimWordChars(username);
  }

  /** The row a successful registration inserts. */
  function RegisteredRow(uid: string, pinHash: string): UserRow {
    UserRow(uid, 0, false, pinHash)
  }

  /** An accepted registration adds one user, and keeps the stored names
      distinct up to letter case. */
  lemma RegistrationKeepsNamesUnique(users: map<string, UserRow>, username: string, pin: string, pinHash: string)
    requires NamesCaseUnique(users)
    requires CheckRegistration(users, username, pin).Ok?
    ensures username !in users
    ensures |users[username := RegisteredRow(CheckRegistration(users, username, pin).value, pinHash)]| == |users| + 1
    ensures NamesCaseUnique(users[username := RegisteredRow(CheckRegistration(users, username, pin).value, pinHash)])
  {
    var uid := CheckRegistration(users, username, pin).value;
    InsertFreshName(users, username, RegisteredRow(uid, pinHash));
  }

  /** Adding a name that no stored name matches ignoring case keeps the
      names distinct up to letter case. */
  lemma InsertFreshName(users: map<string, UserRow>, name: string, row: UserRow)
    requires NamesCaseUnique(users) && !NameTaken(users, name)
    ensures name !in users
    ensures NamesCaseUnique(users[name := row])
  {
    assert Lower(name) == Lower(name);
  }

  // ---------------------------------------------------------------------
  // POST /api/auth/login
  // ---------------------------------------------------------------------

  datatype LoginReply = LoginReply(session: SessionPayload, balance: int)

  /** `SELECT ... WHERE LOWER(username) = LOWER($1)` with queryOne: some
      matching row, if there is one (the query has no ORDER BY). */
  ghost function FindUserCI(users: map<string, UserRow>, name: string): (r: Option<string>)
    ensures r.None? <==> !NameTaken(users, name)
    ensures r.Some? ==> r.value in users && Lower(r.value) == Lower(name)
  {
    if NameTaken(users, name) then
      var k :| k in users && Lower(k) == Lower(name);
      Some(k)
    else None
  }

  /** POST /api/auth/login: missing fields, then no account, then blocked,
      then the PIN. The session carries the stored name, not the input's. */
  ghost function UserLogin(users: map<string, UserRow>, username: string, pin: string,
                           verifyPin: (string, string) -> bool): (r: Result<LoginReply, ApiError>)
    ensures r == Err(MissingFields) <==> username == "" || pin == ""
    ensures r == Err(NoAccount) <==> username != "" && pin != "" && !NameTaken(users, Trim(username))
    ensures r.Ok? ==> exists k :: k in users && Lower(k) == Lower(Trim(username))
                        && !users[k].blocked && verifyPin(pin, users[k].pinHash)
                        && r.value == LoginReply(UserSession(k, users[k].uid), users[k].balance)
  {
    if username == "" || pin == "" then Err(MissingFields)
    else match FindUserCI(users, Trim(username))
      case None => Err(NoAccount)
      case Some(k) =>
        var row := users[k];
        if row.blocked then Err(AccountBlocked)
        else if !verifyPin(pin, row.pinHash) then Err(IncorrectPin)
        else Ok(LoginReply(UserSession(k, row.uid), row.balance))
  }

  /** On a table whose names are distinct up to case the matching row is the
      only one, so the outcome is determined: blocked (403) comes before
      the PIN test, and the PIN decides the rest. */
  lemma UserLoginUnique(users: map<string, UserRow>, username: string, pin: string,
                        verifyPin: (string, string) -> bool, k: string)
    requires NamesCaseUnique(users)
    requires username != "" && pin != ""
    requires k in users && Lower(k) == Lower(Trim(username))
    ensures users[k].blocked ==> UserLogin(users, username, pin, verifyPin) == Err(AccountBlocked)
    ensures !users[k].blocked && !verifyPin(pin, users[k].pinHash) ==>
              UserLogin(users, username, pin, verifyPin) == Err(IncorrectPin)
    ensures !users[k].blocked && verifyPin(pin, users[k].pinHash) ==>
              UserLogin(users, username, pin, verifyPin) == Ok(LoginReply(UserSession(k, users[k].uid), users[k].balance))
  {
    var f := FindUserCI(users, Trim(username));
    assert f.Some?;
    assert f.value == k;
  }

  /** A user who has just registered can log in with the same PIN, under
      any casing of the name, provided bcrypt accepts a PIN against its own
      hash. */
  lemma RegisterThenLogin(users: map<string, UserRow>, username: string, pin: string,
                          hashPin: string -> string, verifyPin: (string, string) -> bool, typed: string)
    requires CheckRegistration(users, username, pin).Ok?
    requires verifyPin(pin, hashPin(pin))
    requires typed != "" && Lower(Trim(typed)) == Lower(username)
    ensures var uid := CheckRegistration(users, username, pin).value;
            var users' := users[username := RegisteredRow(uid, hashPin(pin))];
            UserLogin(users', typed, pin, verifyPin) == Ok(LoginReply(UserSession(username, uid), 0))
  {
    var uid := CheckRegistration(users, username, pin).value;
    var users' := users[username := RegisteredRow(uid, hashPin(pin))];
    var f := FindUserCI(users', Trim(typed));
    assert username in users' && Lower(username) == Lower(Trim(typed));
    assert f.Some?;
  }

  // ---------------------------------------------------------------------
  // POST /api/auth/stall-login
  // ---------------------------------------------------------------------

  /** A row of the `stalls` table. */
  datatype StallRow = StallRow(stallId: string, name: string, pinHash: string)

  predicate StallMatches(row: StallRow, stallId: string, name: string) {
    Lower(row.stallId) == Lower(stallId) && Lower(row.name) == Lower(name)
  }

  /** The first row, in table order, whose id and name both match ignoring
      case. The query has no ORDER BY, so this fixes one of the rows it may
      return. */
  function FindStall(stalls: seq<StallRow>, stallId: string, name: string): (r: Option<StallRow>)
    ensures r.None? <==> forall i :: 0 <= i < |stalls| ==> !StallMatches(stalls[i], stallId, name)
    ensures r.Some? ==> r.value in stalls && StallMatches(r.value, stallId, name)
  {
    if stalls == [] then None
    else if StallMatches(stalls[0], stallId, name) then Some(stalls[0])
    else
      var r := FindStall(stalls[1..], stallId, name);
      assert forall i :: 1 <= i < |stalls| ==> stalls[i] == stalls[1..][i - 1];
      r
  }

  /** The row found is the first matching one in table order. */
  lemma {:induction false} FindStallFirst(stalls: seq<StallRow>, stallId: string, name: string, i: nat)
    requires i < |stalls| && StallMatches(stalls[i], stallId, name)
    requires forall j :: 0 <= j < i ==> !StallMatches(stalls[j], stallId, name)
    ensures FindStall(stalls, stallId, name) == Some(stalls[i])
  {
    if i > 0 {
      FindStallFirst(stalls[1..], stallId, name, i - 1);
    }
  }

  /** POST /api/auth/stall-login. */
  function StallLogin(stalls: seq<StallRow>, stallId: string, stallName: string, pin: string,
                      verifyPin: (string, string) -> bool): (r: Result<SessionPayload, ApiError>)
    ensures r == Err(MissingFields) <==> stallId == "" || stallName == "" || pin == ""
    ensures r == Err(NoStall) <==> (stallId != "" && stallName != "" && pin != ""
                                    && FindStall(stalls, Trim(stallId), Trim(stallName)).None?)
    ensures r.Ok? ==> exists i :: 0 <= i < |stalls|
                        && StallMatches(stalls[i], Trim(stallId), Trim(stallName))
                        && verifyPin(pin, stalls[i].pinHash)
                        && r.value == StallSession(stalls[i].stallId, stalls[i].name)
    ensures var f := FindStall(stalls, Trim(stallId), Trim(stallName));
            stallId != "" && stallName != "" && pin != "" && f.Some? ==>
              && (r.Ok? <==> verifyPin(pin, f.value.pinHash))
              && (!verifyPin(pin, f.value.pinHash) ==> r == Err(IncorrectPin))
              && (r.Ok? ==> r.value == StallSession(f.value.stallId, f.value.name))
  {
    if stallId == "" || stallName == "" || pin == "" then Err(MissingFields)
    else match FindStall(stalls, Trim(stallId), Trim(stallName))
      case None => Err(NoStall)
      case Some(row) =>
        if !verifyPin(pin, row.pinHash) then Err(IncorrectPin)
        else Ok(StallSession(row.stallId, row.name))
  }

  // ---------------------------------------------------------------------
  // POST /api/auth/admin-login
  // ---------------------------------------------------------------------

  /** A row of the `admins` table; the password is stored in plain text. */
  datatype AdminRow = AdminRow(username: string, password: string)

  /** `WHERE username = $1`: exact and case-sensitive. Admin usernames are
      unique, so at most one row matches. */
  function FindAdmin(admins: seq<AdminRow>, username: string): (r: Option<AdminRow>)
    ensures r.None? <==> forall i :: 0 <= i < |admins| ==> admins[i].username != username
    ensures r.Some? ==> r.value in admins && r.value.username == username
  {
    if admins == [] then None
    else if admins[0].username == username then Some(admins[0])
    else FindAdmin(admins[1..], username)
  }

  /** POST /api/auth/admin-login: an unknown admin and a wrong password get
      the same 401. */
  function AdminLogin(admins: seq<AdminRow>, username: string, password: string): (r: Result<SessionPayload, ApiError>)
    ensures r == Err(MissingFields) <==> username == "" || password == ""
    ensures r.Ok? <==> username != "" && password != "" && FindAdmin(admins, Trim(username)).Some?
                       && FindAdmin(admins, Trim(username)).value.password == Trim(password)
    ensures r.Ok? ==> r.value == AdminSession(Trim(username))
    ensures r.Err? && r != Err(MissingFields) ==> r == Err(InvalidCredentials)
  {
    if username == "" || password == "" then Err(MissingFields)
    else match FindAdmin(admins, Trim(username))
      case None => Err(InvalidCredentials)
      case Some(admin) =>
        if admin.password != Trim(password) then Err(InvalidCredentials)
        else Ok(AdminSession(admin.username))
  }
}
