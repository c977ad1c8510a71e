/** The read side of app/api/admin/route.ts and app/api/stalls/route.ts:
    the admin check, the resource and action names, the stall/menu join,
    the dashboard's per-stall record and its totals. The admin actions that
    change the users table are methods of WalletStore.Store. */
module Admin {
  import opened Common
  import opened Domain
  import opened Ledger

  /** `requireAdmin`: the session carries the admin role. */
  predicate IsAdmin(session: Option<SessionPayload>) {
    session.Some? && session.value.AdminSession?
  }

  // ---------------------------------------------------------------------
  // GET /api/admin?resource=...
  // ---------------------------------------------------------------------

  datatype Resource = UsersList | TokensList | StallsList | Dashboard

  function ResourceName(r: Resource): string {
    match r
    case UsersList => "users"
    case TokensList => "tokens"
    case StallsList => "stalls"
    case Dashboard => "dashboard"
  }

  /** The admin check comes first; then the resource name, whose absence
      (`searchParams.get` returning null) is an unknown resource too. */
  function ResourceRoute(session: Option<SessionPayload>, resource: Option<string>): (r: Result<Resource, ApiError>)
    ensures !IsAdmin(session) ==> r == Err(Unauthorized)
    ensures IsAdmin(session) && resource.None? ==> r == Err(UnknownResource)
    ensures IsAdmin(session) ==> r != Err(Unauthorized)
    ensures (IsAdmin(session) && resource.Some? && resource.value !in {"users", "tokens", "stalls", "dashboard"})
              ==> r == Err(UnknownResource)
    ensures r.Ok? ==> IsAdmin(session) && resource == Some(ResourceName(r.value))
    ensures r.Err? ==> r == Err(Unauthorized) || r == Err(UnknownResource)
  {
    if !IsAdmin(session) then Err(Unauthorized)
    else match resource
      case Some("users") => Ok(UsersList)
      case Some("tokens") => Ok(TokensList)
      case Some("stalls") => Ok(StallsList)
      case Some("dashboard") => Ok(Dashboard)
      case _ => Err(UnknownResource)
  }

  lemma ResourceRouteName(session: Option<SessionPayload>, r: Resource)
    requires IsAdmin(session)
    ensures ResourceRoute(session, Some(ResourceName(r))) == Ok(r)
  {
  }

  /** The tokens resource: every token, newest first. */
  function AllTokens(ts: seq<Token>): (r: seq<Token>)
    ensures multiset(r) == multiset(ts)
  {
    Reversed(ts)
  }

  lemma AllTokensNewestFirst(ts: seq<Token>, nextId: int, i: int, j: int)
    requires IdsBelow(ts, nextId)
    requires 0 <= i < j < |ts|
    ensures AllTokens(ts)[i].id > AllTokens(ts)[j].id
  {
  }

  // ---------------------------------------------------------------------
  // POST /api/admin actions
  // ---------------------------------------------------------------------

  datatype Action = Topup | SetBalance | Zero | Block | Unblock

  function ActionName(a: Action): string {
    match a
    case Topup => "topup"
    case SetBalance => "set_balance"
    case Zero => "zero"
    case Block => "block"
    case Unblock => "unblock"
  }

  function ParseAction(s: string): (r: Option<Action>)
    ensures r.Some? ==> ActionName(r.value) == s
  {
    match s
    case "topup" => Some(Topup)
    case "set_balance" => Some(SetBalance)
    case "zero" => Some(Zero)
    case "block" => Some(Block)
    case "unblock" => Some(Unblock)
    case _ => None
  }

  lemma ParseActionName(a: Action)
    ensures ParseAction(ActionName(a)) == Some(a)
  {
  }

  // ---------------------------------------------------------------------
  // The stall/menu join (GET /api/stalls and the admin "stalls" resource)
  // ---------------------------------------------------------------------

  datatype StallWithMenu = StallWithMenu(stallId: string, name: string, menuItems: seq<MenuItem>)

  predicate ServedBy(i: MenuItem, stallId: string) { i.stallId == stallId }

  /** `stalls.map(s => ({...s, menu_items: items.filter(i => i.stall_id === s.stall_id)}))`. */
  function StallMenus(stalls: seq<Stall>, items: seq<MenuItem>): (r: seq<StallWithMenu>)
    ensures |r| == |stalls|
    ensures forall k :: 0 <= k < |r| ==> r[k].stallId == stalls[k].stallId && r[k].name == stalls[k].name
    ensures forall k :: 0 <= k < |r| ==> r[k].menuItems == Filter(items, i => ServedBy(i, stalls[k].stallId))
  {
    if stalls == [] then []
    else
      var s := stalls[0];
      [StallWithMenu(s.stallId, s.name, Filter(items, i => ServedBy(i, s.stallId)))] + StallMenus(stalls[1..], items)
  }

  /** A menu item is listed under a stall exactly when it belongs to it, and
      each stall's menu keeps the order of the item list. */
  lemma StallMenusPlacement(stalls: seq<Stall>, items: seq<MenuItem>, k: int, it: MenuItem)
    requires 0 <= k < |stalls|
    ensures it in StallMenus(stalls, items)[k].menuItems <==> it in items && it.stallId == stalls[k].stallId
    ensures IsSubsequence(StallMenus(stalls, items)[k].menuItems, items)
  {
    FilterMembership(items, i => ServedBy(i, stalls[k].stallId), it);
    FilterSubsequence(items, i => ServedBy(i, stalls[k].stallId));
  }

  /** An item whose stall is not in the stall list is listed nowhere. */
  lemma StallMenusOrphan(stalls: seq<Stall>, items: seq<MenuItem>, it: MenuItem)
    requires forall k :: 0 <= k < |stalls| ==> stalls[k].stallId != it.stallId
    ensures forall k :: 0 <= k < |stalls| ==> it !in StallMenus(stalls, items)[k].menuItems
  {
    forall k | 0 <= k < |stalls| ensures it !in StallMenus(stalls, items)[k].menuItems {
      StallMenusPlacement(stalls, items, k, it);
    }
  }

  // ---------------------------------------------------------------------
  // The dashboard
  // ---------------------------------------------------------------------

  /** A row of the grouped per-stall query. */
  datatype StallStatsRow = StallStatsRow(stallId: string, stallName: string, revenue: int, orders: int, pending: int)

  datatype StallSummary = StallSummary(name: string, revenue: int, orders: int, pending: int)

  function Summary(row: StallStatsRow): StallSummary {
    StallSummary(row.stallName, row.revenue, row.orders, row.pending)
  }

  /** The record the loop builds: each row assigns its stall's key, so a
      later row for the same stall overwrites an earlier one. */
  function StallRecord(rows: seq<StallStatsRow>): map<string, StallSummary> {
    if rows == [] then map[]
    else StallRecord(rows[..|rows| - 1])[rows[|rows| - 1].stallId := Summary(rows[|rows| - 1])]
  }

  /** The keys of the record are the stall ids of the rows. */
  lemma {:induction false} StallRecordKeys(rows: seq<StallStatsRow>, id: string)
    ensures id in StallRecord(rows) <==> exists i :: 0 <= i < |rows| && rows[i].stallId == id
  {
    if rows != [] {
      var init := rows[..|rows| - 1];
      StallRecordKeys(init, id);
      if exists i :: 0 <= i < |init| && init[i].stallId == id {
        var i :| 0 <= i < |init| && init[i].stallId == id;
        assert rows[i].stallId == id;
      }
      if exists i :: 0 <= i < |rows| && rows[i].stallId == id {
        var i :| 0 <= i < |rows| && rows[i].stallId == id;
        if i < |init| { assert init[i].stallId == id; }
      }
    }
  }

  /** Each stall's entry is the summary of its last row. */
  lemma {:induction false} StallRecordLastWins(rows: seq<StallStatsRow>, i: int)
    requires 0 <= i < |rows|
    requires forall j :: i < j < |rows| ==> rows[j].stallId != rows[i].stallId
    ensures rows[i].stallId in StallRecord(rows)
    ensures StallRecord(rows)[rows[i].stallId] == Summary(rows[i])
  {
    if i < |rows| - 1 {
      var init := rows[..|rows| - 1];
      StallRecordLastWins(init, i);
    }
  }

  /** The `for (const s of stallStats)` loop. */
  method BuildStallRecord(rows: seq<StallStatsRow>) returns (stalls: map<string, StallSummary>)
    ensures stalls == StallRecord(rows)
  {
    stalls := map[];
    for i := 0 to |rows|
      invariant stalls == StallRecord(rows[..i])
    {
      assert rows[..i + 1][..i] == rows[..i];
      stalls := stalls[rows[i].stallId := Summary(rows[i])];
    }
    assert rows[..|rows|] == rows;
  }

  /** `COALESCE(SUM(balance), 0)` over the users table. */
  ghost function SumBalances(users: map<string, UserRow>): int
    decreases |users|
  {
    if users == map[] then 0
    else
      var k :| k in users;
      users[k].balance + SumBalances(users - {k})
  }

  lemma {:induction false} SumBalancesRemove(users: map<string, UserRow>, k: string)
    requires k in users
    ensures SumBalances(users) == users[k].balance + SumBalances(users - {k})
    decreases |users|
  {
    var j :| j in users && SumBalances(users) == users[j].balance + SumBalances(users - {j});
    if j != k {
      SumBalancesRemove(users - {j}, k);
      SumBalancesRemove(users - {k}, j);
      assert users - {j} - {k} == users - {k} - {j};
    }
  }

  /** Changing one row changes the sum by the change of its balance. */
  lemma SumBalancesUpdate(users: map<string, UserRow>, k: string, row: UserRow)
    ensures k in users ==> SumBalances(users[k := row]) == SumBalances(users) - users[k].balance + row.balance
    ensures k !in users ==> SumBalances(users[k := row]) == SumBalances(users) + row.balance
  {
    SumBalancesRemove(users[k := row], k);
    if k in users {
      SumBalancesRemove(users, k);
      assert users[k := row] - {k} == users - {k};
    } else {
      assert users[k := row] - {k} == users;
    }
  }

  /** `COALESCE(SUM(total), 0)` over tokens. */
  function SumTotals(ts: seq<Token>): int {
    if ts == [] then 0 else SumTotals(ts[..|ts| - 1]) + ts[|ts| - 1].total
  }

  lemma SumTotalsAppend(ts: seq<Token>, t: Token)
    ensures SumTotals(ts + [t]) == SumTotals(ts) + t.total
  {
    assert (ts + [t])[..|ts|] == ts;
  }

  /** `COUNT(*) FILTER (WHERE status = st)`. */
  function CountStatus(ts: seq<Token>, st: Status): nat {
    if ts == [] then 0 else CountStatus(ts[..|ts| - 1], st) + (if ts[|ts| - 1].status == st then 1 else 0)
  }

  datatype DashboardTotals = DashboardTotals(
    totalUsers: int, totalBalance: int, totalOrders: int, totalRevenue: int, pending: int, served: int)

  /** The two aggregate queries of the dashboard. Every order is either
      pending or served. */
  ghost function Totals(users: map<string, UserRow>, ts: seq<Token>): (r: DashboardTotals)
    ensures r.totalUsers == |users| && r.totalOrders == |ts|
    ensures r.pending + r.served == r.totalOrders
  {
    PendingPlusServed(ts);
    DashboardTotals(|users|, SumBalances(users), |ts|, SumTotals(ts), CountStatus(ts, Pending), CountStatus(ts, Served))
  }

  lemma {:induction false} PendingPlusServed(ts: seq<Token>)
    ensures CountStatus(ts, Pending) + CountStatus(ts, Served) == |ts|
  {
    if ts != [] {
      PendingPlusServed(ts[..|ts| - 1]);
    }
  }
}
