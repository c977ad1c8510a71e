/** The four forms of the sign-in page (app/page.tsx): the digits kept from
    what was typed in the PIN box, the checks each form makes before it
    posts, in their order, and the body it posts. The lemmas at the end
    connect each form to the route that receives its body. */
module LoginForm {
  import opened Common
  import opened Domain
  import opened Auth

  /** The message a form shows instead of posting. */
  datatype FormStop =
    | EnterUsername      // the username box is blank
    | UsernameTooShort   // fewer than three characters once trimmed
    | BadUsernameChars   // a character outside letters, digits and underscore
    | PinNotFour         // fewer or more than four digits
    | PinsDiffer         // the confirmation differs from the PIN
    | EnterStall         // the stall id or the stall name is blank
    | EnterCredentials   // the admin username is blank or the password empty

  datatype UserBody = UserBody(username: string, pin: string)

  datatype StallBody = StallBody(stallId: string, stallName: string, pin: string)

  datatype AdminBody = AdminBody(username: string, password: string)

  /** A PIN box keeps its digits: the result is all digits, in the order
      typed, and keeps every digit typed. */
  lemma StripKeepsDigitsInOrder(pin: string)
    ensures forall i :: 0 <= i < |StripNonDigits(pin)| ==> IsDigit(StripNonDigits(pin)[i])
    ensures IsSubsequence(StripNonDigits(pin), pin)
    ensures forall c :: IsDigit(c) ==> multiset(StripNonDigits(pin))[c] == multiset(pin)[c]
  {
    StripNonDigitsSubsequence(pin);
  }

  /** Letters typed between the digits are dropped. */
  lemma StripExample()
    ensures StripNonDigits("a1b2") == "12"
  {
    var s := "a1b2";
    assert s[1..] == "1b2" && s[1..][1..] == "b2" && s[1..][1..][1..] == "2";
    assert "2"[1..] == [];
    assert StripNonDigits("2") == "2";
    assert StripNonDigits("b2") == "2";
    assert StripNonDigits("1b2") == "12";
  }

  // ---------------------------------------------------------------------
  // handleRegister
  // ---------------------------------------------------------------------

  /** The checks run in order: at least three characters after trimming,
      then word characters only, then a four-digit PIN, then the
      confirmation equal to it; only then is the trimmed name posted with
      the stripped PIN. */
  function RegisterForm(user: string, pin: string, conf: string): (r: Result<UserBody, FormStop>)
    ensures r == Err(UsernameTooShort) <==> |Trim(user)| < 3
    ensures r == Err(BadUsernameChars) <==> |Trim(user)| >= 3 && !AllWordChars(Trim(user))
    ensures r == Err(PinNotFour) <==> ValidUsername(Trim(user)) && |StripNonDigits(pin)| != 4
    ensures r == Err(PinsDiffer) <==> (ValidUsername(Trim(user)) && |StripNonDigits(pin)| == 4
                                       && StripNonDigits(pin) != StripNonDigits(conf))
    ensures r.Ok? <==> (ValidUsername(Trim(user)) && |StripNonDigits(pin)| == 4
                        && StripNonDigits(pin) == StripNonDigits(conf))
    ensures r.Ok? ==> r.value == UserBody(Trim(user), StripNonDigits(pin)) && IsFourDigits(r.value.pin)
  {
    var u := Trim(user);
    var p := StripNonDigits(pin);
    if u == "" || |u| < 3 then Err(UsernameTooShort)
    else if !AllWordChars(u) then Err(BadUsernameChars)
    else if |p| != 4 then Err(PinNotFour)
    else if p != StripNonDigits(conf) then Err(PinsDiffer)
    else Ok(UserBody(u, p))
  }

  /** A body the form lets through passes every field check of the
      register route: the server can only refuse it as a taken name, and
      otherwise answers with the next UID. */
  lemma RegisterFormPassesServerChecks(users: map<string, UserRow>, user: string, pin: string, conf: string)
    requires RegisterForm(user, pin, conf).Ok?
    ensures var body := RegisterForm(user, pin, conf).value;
            var r := CheckRegistration(users, body.username, body.pin);
            && (r.Ok? <==> !NameTaken(users, body.username))
            && (r.Err? ==> r.error == UsernameTaken)
            && (r.Ok? ==> r.value == MakeUid(|users|))
  {
  }

  // ---------------------------------------------------------------------
  // handleUserLogin, handleStallLogin, handleAdminLogin
  // ---------------------------------------------------------------------

  /** A non-blank username first, then a four-digit PIN. */
  function UserLoginForm(user: string, pin: string): (r: Result<UserBody, FormStop>)
    ensures r == Err(EnterUsername) <==> Trim(user) == ""
    ensures r == Err(PinNotFour) <==> Trim(user) != "" && |StripNonDigits(pin)| != 4
    ensures r.Ok? <==> Trim(user) != "" && |StripNonDigits(pin)| == 4
    ensures r.Ok? ==> r.value == UserBody(Trim(user), StripNonDigits(pin)) && IsFourDigits(r.value.pin)
  {
    var p := StripNonDigits(pin);
    if Trim(user) == "" then Err(EnterUsername)
    else if |p| != 4 then Err(PinNotFour)
    else Ok(UserBody(Trim(user), p))
  }

  /** The login route never answers a posted user form with "Missing
      fields", and its own trim leaves the posted name as it is. */
  lemma UserLoginFormHasFields(users: map<string, UserRow>, user: string, pin: string,
                               verifyPin: (string, string) -> bool)
    requires UserLoginForm(user, pin).Ok?
    ensures var body := UserLoginForm(user, pin).value;
            && UserLogin(users, body.username, body.pin, verifyPin) != Err(MissingFields)
            && Trim(body.username) == body.username
  {
    TrimIdempotent(user);
  }

  /** A non-blank stall id and stall name, then a four-digit PIN. */
  function StallLoginForm(stallId: string, stallName: string, pin: string): (r: Result<StallBody, FormStop>)
    ensures r == Err(EnterStall) <==> Trim(stallId) == "" || Trim(stallName) == ""
    ensures r == Err(PinNotFour) <==> Trim(stallId) != "" && Trim(stallName) != "" && |StripNonDigits(pin)| != 4
    ensures r.Ok? <==> Trim(stallId) != "" && Trim(stallName) != "" && |StripNonDigits(pin)| == 4
    ensures r.Ok? ==> r.value == StallBody(Trim(stallId), Trim(stallName), StripNonDigits(pin))
                      && IsFourDigits(r.value.pin)
  {
    var p := StripNonDigits(pin);
    if Trim(stallId) == "" || Trim(stallName) == "" then Err(EnterStall)
    else if |p| != 4 then Err(PinNotFour)
    else Ok(StallBody(Trim(stallId), Trim(stallName), p))
  }

  lemma StallLoginFormHasFields(stalls: seq<StallRow>, stallId: string, stallName: string, pin: string,
                                verifyPin: (string, string) -> bool)
    requires StallLoginForm(stallId, stallName, pin).Ok?
    ensures var body := StallLoginForm(stallId, stallName, pin).value;
            StallLogin(stalls, body.stallId, body.stallName, body.pin, verifyPin) != Err(MissingFields)
  {
  }

  /** A non-blank username and a non-empty password; the password is posted
      as typed and the username trimmed. */
  function AdminLoginForm(user: string, password: string): (r: Result<AdminBody, FormStop>)
    ensures r.Err? <==> Trim(user) == "" || password == ""
    ensures r.Err? ==> r.error == EnterCredentials
    ensures r.Ok? ==> r.value == AdminBody(Trim(user), password)
  {
    if Trim(user) == "" || password == "" then Err(EnterCredentials)
    else Ok(AdminBody(Trim(user), password))
  }

  /** The admin route never answers a posted admin form with "Missing
      fields"; it signs in exactly when an admin of that name exists and
      the stored password equals the posted one trimmed. */
  lemma AdminLoginFormOutcome(admins: seq<AdminRow>, user: string, password: string)
    requires AdminLoginForm(user, password).Ok?
    ensures var body := AdminLoginForm(user, password).value;
            var r := AdminLogin(admins, body.username, body.password);
            && r != Err(MissingFields)
            && (r.Ok? <==> (FindAdmin(admins, Trim(user)).Some?
                            && FindAdmin(admins, Trim(user)).value.password == Trim(password)))
  {
    TrimIdempotent(user);
  }
}
