/** The records the routes and pages exchange (the shapes of types/index.ts
    and of the session payload of lib/auth.ts), with money in integer
    minor units (paise). */
module Domain {
  import opened Common

  datatype Status = Pending | Served

  function StatusName(s: Status): string {
    match s
    case Pending => "Pending"
    case Served => "Served"
  }

  /** `['Pending', 'Served'].includes(status)` followed by the cast. */
  function ParseStatus(s: string): (r: Option<Status>)
    ensures r.Some? <==> s == "Pending" || s == "Served"
    ensures r.Some? ==> StatusName(r.value) == s
  {
    if s == "Pending" then Some(Pending)
    else if s == "Served" then Some(Served)
    else None
  }

  lemma ParseStatusName(st: Status)
    ensures ParseStatus(StatusName(st)) == Some(st)
  {
  }

  /** One line of an order, snapshotted at order time. */
  datatype OrderItem = OrderItem(name: string, qty: int, price: int)

  /** A row of the `tokens` table; `created_at` is represented by the row's
      position in the table. */
  datatype Token = Token(
    id: int,
    tokenNo: int,
    stallId: string,
    stallName: string,
    username: string,
    items: seq<OrderItem>,
    total: int,
    status: Status)

  /** The body of POST /api/tokens; a numeric field the body leaves out
      is taken as 0, and `items` is None when it is absent or null. */
  datatype OrderRequest = OrderRequest(
    stallId: string,
    stallName: string,
    items: Option<seq<OrderItem>>,
    total: int,
    pin: string)

  /** `!stall_id || !items || !total || !pin` is false. An empty item list
      is an array, which JavaScript counts as present; the stall name is
      not checked. */
  predicate OrderFieldsPresent(req: OrderRequest) {
    req.stallId != "" && req.items.Some? && req.total != 0 && req.pin != ""
  }

  /** A row of the `users` table without its key, the username. */
  datatype UserRow = UserRow(uid: string, balance: int, blocked: bool, pinHash: string)

  /** The public columns of a row of the `stalls` table. */
  datatype Stall = Stall(stallId: string, name: string)

  /** A row of the `menu_items` table. */
  datatype MenuItem = MenuItem(id: int, stallId: string, name: string, price: int)

  /** The signed session (`SessionPayload` of lib/auth.ts). */
  datatype SessionPayload =
    | UserSession(username: string, uid: string)
    | StallSession(stallId: string, stallName: string)
    | AdminSession(adminName: string)

  /** The error replies of the routes, each with its HTTP status. */
  datatype ApiError =
    | Unauthorized
    | MissingFields
    | UserNotFound
    | AccountBlocked
    | WrongPin
    | InsufficientBalance(balance: int)
    | OrderFailed
    | InvalidPatch
    | TokenNotFound
    | UnknownResource
    | UnknownAction
    | InvalidPin
    | PinNotFourDigits
    | InvalidUsername
    | UsernameTaken
    | NoAccount
    | IncorrectPin
    | NoStall
    | InvalidCredentials
    | RegistrationFailed
  {
    function Code(): int {
      match this
      case Unauthorized => 401
      case MissingFields => 400
      case UserNotFound => 404
      case AccountBlocked => 403
      case WrongPin => 401
      case InsufficientBalance(_) => 400
      case OrderFailed => 500
      case InvalidPatch => 400
      case TokenNotFound => 404
      case UnknownResource => 400
      case UnknownAction => 400
      case InvalidPin => 400
      case PinNotFourDigits => 400
      case InvalidUsername => 400
      case UsernameTaken => 409
      case NoAccount => 401
      case IncorrectPin => 401
      case NoStall => 401
      case InvalidCredentials => 401
      case RegistrationFailed => 500
    }
  }
}
