# vault_next wallet and ordering core, in Dafny

vault_next is a campus food-court app. Students hold a prepaid wallet. They
order from stalls with a four-digit PIN, and each order becomes a *token*
numbered per stall. Stall owners mark tokens Pending or Served. An admin
tops up, sets and zeroes balances, and blocks or unblocks accounts.

This project models that core as one sequential in-memory store: a `users`
map keyed by the exact username and a `tokens` sequence in insertion order.
It also models the pure list logic of the four pages.

Modules (one file each):

- `Common` (common.dfy): JavaScript string helpers (`trim`, ASCII
  `toLowerCase`, `includes`, `replace(/\D/g,'')`), `filter`, and subsequences.
- `Domain` (domain.dfy): tokens, order bodies, user rows, sessions, and
  API errors with their HTTP codes.
- `Ledger` (ledger.dfy): per-stall token numbering and its invariant, the
  stall-scoped status UPDATE, and the two token GET routes.
- `Auth` (auth.dfy): registration checks and UID generation, and the three
  login routes.
- `Admin` (admin.dfy): `requireAdmin`, the resource and action names, the
  stall/menu join, and the dashboard record and totals.
- `WalletStore` (store.dfy): the database value `Db` and its invariant.
  Each state-changing route is a function from the database before to its
  reply and the database after. The class `Store` carries out the same
  steps on its fields and is proved equal to that function.
- `Cart` (cart.dfy): the user page's `setQty`, `cartTotal`, `cartCount` and
  the `handlePay` body.
- `StallView` (stall_view.dfy): the stall page's toggle, its optimistic
  update, and its Pending/Served lists.
- `AdminView` (admin_view.dfy): the admin page's transaction filters,
  revenue, sorted stall ids, user search and top-up list.
- `LoginForm` (login_form.dfy): the sign-in page's four forms.

How these are modelled:

- Money is in integer minor units.
- bcrypt's `compare` and `hash` are the function parameters `verifyPin` and
  `hashPin`.
- The signed session is the datatype `SessionPayload`.
- The database can fail at any statement of the order transaction. This is
  the parameter `DbFault`. The registration INSERT can also fail; this is
  the parameter `insertFails`.

The order route trusts the client's `total`. It checks `!total`, which
refuses 0 but lets a negative total through. The model keeps this
behaviour: `NegativeTotalCredits` shows a negative total raising the
user's balance.

## Model

| member | source | states |
|---|---|---|
| WalletStore.Store.PlaceOrder | app/api/tokens/route.ts:7-69 | The store ends in exactly the reply and state of `PlaceOrderSpec`, and the invariant (dense token numbers, increasing ids, case-distinct names) is kept |
| WalletStore.Store.RunTransaction | lib/db.ts:56-73 | The statements of `transaction()` with the snapshot ROLLBACK restores give exactly `TransactionSpec`: a failure at any statement, or the thrown INSUFFICIENT, restores users and tokens |
| WalletStore.OrderPrecheck | app/api/tokens/route.ts:8-24 | A precheck passes only for a user session whose user exists, with every field present, and it then yields that session's username |
| WalletStore.OrderRejections | app/api/tokens/route.ts:8-37 | The error replies come in the route's order: 401 non-user session, 400 missing fields, 404 unknown user, 403 blocked, 401 wrong PIN, 500 lock failure, 400 insufficient balance carrying the balance, 500 any later failure |
| WalletStore.OrderAllOrNothing | app/api/tokens/route.ts:28-67 | An order succeeds if and only if the checks pass, the balance covers the total and the database does not fail; any error leaves every balance and every token unchanged |
| WalletStore.OrderDebits | app/api/tokens/route.ts:36-43 | On success the user's balance becomes exactly the old balance minus the total, no other user changes, `new_balance` is the stored balance, and it is non-negative |
| WalletStore.OrderAppendsToken | app/api/tokens/route.ts:45-59 | On success exactly one Pending token is appended with the request's stall, name, items and total, the session's username, the next id, and token number equal to 1 plus the stall's earlier token count; earlier rows are kept |
| WalletStore.OrderConservation | app/api/tokens/route.ts:40-57 | The sum of balances plus the sum of token totals is the same before and after any order, successful or not |
| WalletStore.OrderKeepsValid | app/api/tokens/route.ts:46-57 | Every order outcome keeps the store invariant |
| WalletStore.NegativeTotalCredits | app/api/tokens/route.ts:13-43 | A total of -500 passes the field check and the balance test and raises a balance of 100 to 600 |
| Ledger.MaxTokenNo | app/api/tokens/route.ts:46-50 | `MAX(token_no)` over one stall is None exactly when the stall has no token, and otherwise the largest of its numbers |
| Ledger.NextTokenNo | app/api/tokens/route.ts:46-50 | `COALESCE(MAX, 0) + 1` is 1 for a stall with no tokens and above every number the stall holds |
| Ledger.DenseNext | app/api/tokens/route.ts:46-50 | On a dense table the next number of a stall is its token count plus one |
| Ledger.DenseAppend | app/api/tokens/route.ts:46-57 | Appending a token with the next number of its stall keeps each stall's numbers dense |
| Ledger.DenseIncreasing | app/api/tokens/route.ts:46-50 | On a dense table a stall's numbers strictly increase in insertion order, so no stall holds two tokens with one number |
| Ledger.DenseNumbersExact | app/api/tokens/route.ts:46-50 | After N orders at a stall its numbers are exactly {1, ..., N} |
| Ledger.MyTokens | app/api/tokens/route.ts:72-83 | A non-user session gets 401; otherwise the answer is exactly the session user's tokens (`UserTokens`), newest first |
| Ledger.UserTokensMembers | app/api/tokens/route.ts:77-81 | The user's history holds a token if and only if it is in the table and belongs to that user |
| Ledger.UserTokensNewestFirst | app/api/tokens/route.ts:77-81 | The history is in descending id order, newest first |
| Ledger.StallTokens | app/api/tokens/stall/route.ts:8-19 | A non-stall session gets 401; otherwise the answer is exactly the session stall's queue (`StallQueue`) |
| Ledger.StallQueueMembers | app/api/tokens/stall/route.ts:13-17 | The stall's list holds a token if and only if it is in the table and belongs to that stall |
| Ledger.StallQueueSorted | app/api/tokens/stall/route.ts:13-17 | On a dense table the stall's list is in strictly descending token-number order |
| WalletStore.Store.UpdateStatus | app/api/tokens/stall/route.ts:22-40 | The store ends in exactly the reply and state of `UpdateStatusSpec`, and the invariant is kept |
| WalletStore.UpdateStatusFrame | app/api/tokens/stall/route.ts:22-40 | For every row: only the status column of rows matching both the id and the session's stall changes; users, the id sequence and the table length stay; success implies a matching row exists and reports the status sent; repeating the request gives the same answer and changes nothing more |
| WalletStore.UpdateStatusOutcome | app/api/tokens/stall/route.ts:22-40 | 401 without a stall session, then 400 for a zero id or an unknown status, then 404 when no token of that stall has the id; success exactly when all checks pass, answering with the id and the parsed status; an error changes nothing |
| WalletStore.UpdateStatusKeepsValid | app/api/tokens/stall/route.ts:31-36 | The status update keeps the store invariant |
| Ledger.SetStatusWhereAt | app/api/tokens/stall/route.ts:31-36 | Each row after the UPDATE is the row with the new status if it matches both the id and the stall, and otherwise the old row |
| Ledger.SetStatusNoTarget | app/api/tokens/stall/route.ts:31-38 | Without a row matching both the id and the stall, the table is unchanged, so one stall cannot alter another stall's token |
| Ledger.SetStatusIdempotent | app/api/tokens/stall/route.ts:31-39 | Setting the same status twice gives the table of setting it once |
| Ledger.SetStatusKeepsInvariants | app/api/tokens/stall/route.ts:31-36 | The update keeps dense numbering and the id order |
| Ledger.SetStatusSingleRow | app/api/tokens/stall/route.ts:31-36 | With distinct ids exactly the one row with that id changes |
| Domain.ParseStatus | app/api/tokens/stall/route.ts:28 | A status string is accepted if and only if it is "Pending" or "Served", and it names the parsed status |
| Domain.ParseStatusName | types/index.ts:41 | Parsing a status's name gives the status back |
| WalletStore.Store.Register | app/api/auth/register/route.ts:7-34 | The store ends in exactly the reply and state of `RegisterSpec`, and the invariant is kept |
| WalletStore.RegisterOutcome | app/api/auth/register/route.ts:9-32 | Registration succeeds if and only if the checks pass and the insert does; otherwise nothing changes; tokens and the id sequence are never touched |
| WalletStore.RegisterAdds | app/api/auth/register/route.ts:18-29 | A successful registration adds exactly one row under the name as typed, with the next UID, balance 0, not blocked, and the PIN's hash, and replies with that UID |
| WalletStore.RegisterKeepsValid | app/api/auth/register/route.ts:14-29 | Registration keeps the store invariant, including case-distinct usernames |
| Auth.CheckRegistration | app/api/auth/register/route.ts:9-20 | Each check fails exactly under its condition in the route's order (missing, PIN not four digits, bad username, name taken ignoring case); on success the UID is `MakeUid` of the user count |
| Auth.RegisteredNameIsInput | app/api/auth/register/route.ts:11-27 | A name that passed the regular expression is unchanged by trim |
| Auth.RegistrationKeepsNamesUnique | app/api/auth/register/route.ts:14-29 | An accepted name is new, the table grows by one, and names stay distinct ignoring case |
| Auth.InsertFreshName | app/api/auth/register/route.ts:14-29 | Inserting a name no stored name matches ignoring case keeps names distinct ignoring case |
| Auth.DecimalString | app/api/auth/register/route.ts:20 | `String(n)` is a non-empty string of digits with no leading zero (it starts with 0 only for n = 0) and has one digit exactly when n < 10 |
| Auth.DecimalRoundTrip | app/api/auth/register/route.ts:20 | Reading the decimal string back gives the number |
| Auth.PadStart | app/api/auth/register/route.ts:20 | `padStart` pads on the left with the fill character up to the width and never truncates |
| Auth.UidRoundTrip | app/api/auth/register/route.ts:19-20 | A UID is "UID_" followed by `String(count + 1)` left-padded with zeros to exactly max(4, its length) digits, which read back as count + 1 |
| Auth.UidLayout | app/api/auth/register/route.ts:20 | A four-character prefix plus `padStart(4, '0')` of a digit string: the prefix, zeros, then the digits, of length 4 + max(4, their count), with the same value |
| Auth.PadDigits | app/api/auth/register/route.ts:20 | Zero-padding a digit string keeps it all digits and keeps its value |
| Auth.UidInjective | app/api/auth/register/route.ts:19-20 | Different user counts give different UIDs |
| Auth.UidExamplePadded | app/api/auth/register/route.ts:20 | A count of 0 gives "UID_0001" |
| Auth.UidExampleLong | app/api/auth/register/route.ts:20 | A count of 12344 gives "UID_12345", not truncated |
| Auth.FindUserCI | app/api/auth/login/route.ts:12-15 | The case-insensitive lookup finds a row exactly when some stored name equals the input ignoring case, and then returns such a name |
| Auth.UserLogin | app/api/auth/login/route.ts:8-27 | Missing fields if and only if a field is empty; no account if and only if no name matches ignoring case; a success is an unblocked matching row whose PIN verifies, with the session carrying the stored username and uid |
| Auth.UserLoginUnique | app/api/auth/login/route.ts:17-24 | On case-distinct names the match is unique: blocked gives 403 before the PIN test, a failing PIN gives 401, otherwise the stored row's session and balance |
| Auth.RegisterThenLogin | app/api/auth/login/route.ts:12-24 | A freshly registered user logs in with the same PIN under any casing of the name, with balance 0 |
| Auth.FindStall | app/api/auth/stall-login/route.ts:11-14 | The stall lookup finds nothing exactly when no row matches both id and name ignoring case, and otherwise returns a matching row |
| Auth.FindStallFirst | app/api/auth/stall-login/route.ts:11-14 | The row found is the first matching row in table order |
| Auth.StallLogin | app/api/auth/stall-login/route.ts:6-25 | Missing fields if and only if a field is empty; no stall if and only if nothing matches the trimmed inputs; for the row found, success exactly when its PIN verifies, an incorrect PIN otherwise, and the session carries the stored id and name |
| Auth.FindAdmin | app/api/auth/admin-login/route.ts:12-15 | The admin lookup is exact and case-sensitive: nothing if and only if no row has that name |
| Auth.AdminLogin | app/api/auth/admin-login/route.ts:7-24 | Missing fields if and only if a field is empty; success if and only if the trimmed name exists and its stored password equals the trimmed password; every other failure is the same 401 |
| WalletStore.BalanceOf | app/api/users/balance/route.ts:7-17 | Every non-user session gets 401; a user session whose name has no row gets 404; otherwise exactly the stored balance; it reads and never writes |
| WalletStore.Store.AdminPost | app/api/admin/route.ts:93-131 | The store ends in exactly the reply and state of `AdminPostSpec`, and the invariant is kept |
| WalletStore.UpdateUser | app/api/admin/route.ts:103-126 | `UPDATE ... WHERE username` changes only the named row, applies the change to it when it exists, and keeps the set of names |
| WalletStore.AdminPostFrame | app/api/admin/route.ts:93-131 | Admin actions touch only the users table, keep its names, change no other user, and change nothing on an error; a non-admin gets 401 and an unknown action 400 |
| WalletStore.AdminPostKeepsValid | app/api/admin/route.ts:99-128 | Every admin action keeps the store invariant |
| WalletStore.TopupAdds | app/api/admin/route.ts:99-105 | A top-up replaces the row by the same row with balance old + amount, returns that sum, and the balance route then reports it |
| WalletStore.TopupUnknownUser | app/api/admin/route.ts:99-101 | A top-up of a name with no row answers 404 and leaves the database unchanged |
| WalletStore.SetBalanceSets | app/api/admin/route.ts:107-115 | `set_balance` and `zero` answer ok without a new balance and replace the row by the same row with balance `amount` (respectively 0), which the balance route then reports |
| WalletStore.BlockRow | app/api/admin/route.ts:117-120 | `block` answers ok without a new balance, sets the flag of the named row and changes nothing else in it |
| WalletStore.BlockLocksOut | app/api/admin/route.ts:117-120 | After `block` the user's orders and logins are refused with 403, whatever the PIN |
| WalletStore.UnblockRow | app/api/admin/route.ts:122-128 | `unblock` with a four-digit PIN answers ok without a new balance, clears the flag, stores the new PIN's hash, and changes nothing else in the row |
| WalletStore.AdminUpdateMissingUser | app/api/admin/route.ts:107-128 | `set_balance`, `zero`, `block`, and `unblock` with a four-digit PIN, of a name with no row, answer ok and leave the database unchanged |
| WalletStore.UnblockRestores | app/api/admin/route.ts:122-128 | After `unblock` the user logs in with the new PIN and keeps uid and balance |
| WalletStore.UnblockNeedsFourDigits | app/api/admin/route.ts:123-124 | An unblock whose PIN is not four digits is refused with 400 and changes nothing |
| Admin.ResourceRoute | app/api/admin/route.ts:12-89 | A non-admin gets 401 and an admin never does; a missing resource or a name other than users, tokens, stalls and dashboard gets 400; a resource is served only for an admin asking for it by name |
| Admin.ResourceRouteName | app/api/admin/route.ts:16-46 | Every resource name is routed to its resource |
| Admin.ParseAction | app/api/admin/route.ts:99-130 | A parsed action is the one its name spells |
| Admin.ParseActionName | app/api/admin/route.ts:99-122 | Every action name is parsed back to its action |
| Admin.AllTokens | app/api/admin/route.ts:25-31 | The tokens resource lists every token exactly once |
| Admin.AllTokensNewestFirst | app/api/admin/route.ts:25-31 | The tokens resource is in descending id order |
| Admin.StallMenus | app/api/stalls/route.ts:14-17 | One entry per stall, in stall order, keeping its id and name, whose menu is the items of that stall |
| Admin.StallMenusPlacement | app/api/admin/route.ts:40-43 | An item is listed under a stall if and only if it belongs to it, and each menu keeps the items' order |
| Admin.StallMenusOrphan | app/api/stalls/route.ts:14-17 | An item whose stall is not in the list appears in no entry |
| Admin.BuildStallRecord | app/api/admin/route.ts:68-76 | The loop builds exactly `StallRecord` of the grouped rows |
| Admin.StallRecordKeys | app/api/admin/route.ts:68-76 | The record has a key if and only if some grouped row carries that stall id |
| Admin.StallRecordLastWins | app/api/admin/route.ts:69-75 | Each stall's entry copies the name, revenue, orders and pending of its last row |
| Admin.Totals | app/api/admin/route.ts:48-58 | The dashboard counts users and orders, and pending plus served equals the order count |
| Admin.PendingPlusServed | types/index.ts:41 | Every token is counted as either pending or served |
| Admin.SumBalancesUpdate | app/api/admin/route.ts:49-50 | Changing one row changes the balance sum by the change of that row's balance |
| Admin.SumTotalsAppend | app/api/admin/route.ts:52-57 | Appending a token adds its total to the revenue sum |
| Cart.QtyOf | app/user/page.tsx:96 | A name absent from the cart has quantity 0; otherwise the quantity is that of a line with the name |
| Cart.SetQtyRemoves | app/user/page.tsx:97-98 | When the quantity plus delta is at most 0 the name leaves the cart |
| Cart.SetQtyStores | app/user/page.tsx:97-99 | Otherwise the name holds the old quantity plus delta and the price passed |
| Cart.SetQtyFrame | app/user/page.tsx:98-99 | Every line with another name is in the cart after `setQty` if and only if it was before |
| Cart.SetQtyKeepsInvariant | app/user/page.tsx:98-99 | `setQty` keeps all quantities positive and the names distinct |
| Cart.CartSumsNonNegative | app/user/page.tsx:103-104 | Both sums are 0 on an empty cart; the count is at least the number of lines, and the total is non-negative for non-negative prices |
| Cart.SetQtyTotal | app/user/page.tsx:94-103 | `cartTotal` after `setQty` loses the old line's price times quantity and gains price times the new quantity |
| Cart.SetQtyCount | app/user/page.tsx:94-104 | `cartCount` after `setQty` loses the old quantity and gains the new one |
| Cart.Items | app/user/page.tsx:112 | One `{name, qty, price}` per cart line, in cart order |
| Cart.PayRequestContents | app/user/page.tsx:106-116 | A body is sent if and only if a stall and session exist and the stripped PIN has four digits; it carries four digits, the cart's lines, and the cart total, which equals the lines' total |
| Cart.PayRequestPassesFieldCheck | app/user/page.tsx:106-116 | A sent body passes the order route's field check if and only if the stall id is non-empty and the cart total is not 0 |
| StallView.Toggle | app/stall/page.tsx:58 | The requested status differs from the current one |
| StallView.ToggleTwice | app/stall/page.tsx:58 | Toggling twice restores the status |
| StallView.MarkLocal | app/stall/page.tsx:66 | The map keeps the length and marks each token by its id |
| StallView.OptimisticUpdateEffect | app/stall/page.tsx:64-66 | A refused PATCH, or an id absent from the list, leaves the list alone; an accepted one changes only the token with that id, keeping length and order |
| StallView.MarkReversed | app/stall/page.tsx:66 | The local update commutes with reversing the list |
| StallView.OptimisticMatchesServer | app/stall/page.tsx:64-66 | The local update of the stall's list equals the stall's list the server returns after the PATCH |
| StallView.PendingServedPartition | app/stall/page.tsx:77-78 | The pending and served lists are order-preserving sublists with no common token, and together they hold every token |
| StallView.DisplayMembers | app/stall/page.tsx:79 | The list shown holds exactly the tokens whose status the filter selects, in token order |
| AdminView.FilteredTxnsIsOneFilter | app/admin/page.tsx:76-79 | The three chained filters keep the same transactions as one filter on the conjunction |
| AdminView.FilteredTxnsMembers | app/admin/page.tsx:76-79 | A transaction is kept if and only if it passes the stall, status and user conditions; the result is an order-preserving subsequence |
| AdminView.FilteredTxnsUnfiltered | app/admin/page.tsx:77-79 | With both filters "All" and a blank user query every transaction is kept |
| AdminView.SumTotalsReversed | app/admin/page.tsx:81 | The revenue sum does not depend on the list's order |
| AdminView.UnfilteredRevenueIsDashboardRevenue | app/admin/page.tsx:81 | Unfiltered, the page's revenue equals the dashboard's total revenue |
| AdminView.StallIds | app/admin/page.tsx:82 | The stall-id list is strictly sorted, hence duplicate-free, and holds exactly the stall ids of the transactions |
| AdminView.StrictlySortedUnique | app/admin/page.tsx:82 | Two strictly sorted lists with the same members are equal, so the list is determined by the set |
| AdminView.LexTransitive | app/admin/page.tsx:82 | The string order is transitive |
| AdminView.LexTotal | app/admin/page.tsx:82 | Any two different strings are ordered one way |
| AdminView.InsertSorted | app/admin/page.tsx:82 | Inserting into a strictly sorted list keeps it strictly sorted |
| AdminView.FilteredUsersMembers | app/admin/page.tsx:84-86 | A user is kept if and only if the query is blank or matches the username or uid ignoring case; the result keeps the list's order, and a blank query keeps everyone |
| AdminView.TopupCandidatesMembers | app/admin/page.tsx:274 | The top-up list holds exactly the unblocked users |
| Common.StripNonDigits | app/page.tsx:54 | The stripped PIN is no longer than the input, all digits, and holds every digit of the input as often as it occurs |
| Common.StripNonDigitsKeepsDigits | app/page.tsx:65 | A string of digits is unchanged by stripping |
| LoginForm.StripKeepsDigitsInOrder | app/page.tsx:54-79 | The stripped PIN is all digits, a subsequence of what was typed, and keeps every typed digit as often as it occurs |
| LoginForm.StripExample | app/page.tsx:54 | Letters typed between digits are dropped ("a1b2" becomes "12") |
| LoginForm.RegisterForm | app/page.tsx:63-70 | The guards fail in order (too short, bad characters, PIN not four digits, confirmation differs), each if and only if its condition holds after the earlier ones pass; only then is the trimmed name posted with the four-digit PIN |
| LoginForm.RegisterFormPassesServerChecks | app/page.tsx:70 | The register route can refuse a posted form only as a taken name; otherwise it answers with the next UID |
| LoginForm.UserLoginForm | app/page.tsx:52-57 | A blank username stops first, then a PIN without four digits; the form is posted exactly when the trimmed name is non-blank and the PIN has four digits, with the trimmed name and those digits |
| LoginForm.UserLoginFormHasFields | app/page.tsx:57 | The login route never answers a posted form with missing fields, and its trim leaves the name as posted |
| LoginForm.StallLoginForm | app/page.tsx:77-82 | A blank stall id or name stops first, then a PIN without four digits; the form is posted exactly when both are non-blank and the PIN has four digits, with the trimmed id and name and those digits |
| LoginForm.StallLoginFormHasFields | app/page.tsx:82 | The stall-login route never answers a posted form with missing fields |
| LoginForm.AdminLoginForm | app/page.tsx:88-91 | The form stops if and only if the trimmed username is blank or the password empty; the password is posted as typed |
| LoginForm.AdminLoginFormOutcome | app/page.tsx:91 | A posted admin form is never refused for missing fields; it signs in if and only if the admin exists and the stored password equals the typed one trimmed |
| Common.Trim | app/page.tsx:55 | `trim` removes only white space at either end and leaves no white space at the ends |
| Common.TrimIdempotent | app/page.tsx:57 | Trimming twice is trimming once |
| Common.ContainsAt | app/admin/page.tsx:79 | `includes` holds if and only if the query occurs as a contiguous block |
| Common.LowerIdempotent | app/admin/page.tsx:79 | Lower-casing twice is lower-casing once |

## Left out

- Concurrency. The `SELECT ... FOR UPDATE` row lock, isolation levels and the connection pool are not modelled. Routes run one at a time, so `MAX(token_no) + 1` is unique here; under concurrent orders to one stall that depends on the database.
- lib/db.ts plumbing. The pool, `connect`/`release` and the SQL text are not modelled. `transaction()` is kept only as the snapshot that ROLLBACK restores.
- bcrypt. `compare` is the parameter `verifyPin` and `hash` is the parameter `hashPin`. The lemmas that need a PIN to verify against its own hash take that as a precondition.
- lib/auth.ts. JWT signing, verification and cookies are foreign calls. The session is the datatype `SessionPayload`, passed in. Logout is not modelled.
- Floating point and `Number(...)`. Money is an integer. `toFixed` and locale formatting are not modelled. The admin `amount` is an integer, so a missing or non-numeric amount (`NaN` in the route) is not modelled.
- Missing numeric fields. A missing `total` in an order body is taken as 0, which JavaScript also treats as falsy. A missing `token_id` is likewise taken as 0.
- WalletStore.TransactionSpec: the route re-reads the balance with `rows[0]?.balance ?? 0`. The model reads the row the precheck found, because nothing can delete it in between when routes run one at a time.
- WalletStore.RegisterSpec: the `23505` unique-violation path on the INSERT is not reachable here. The check before it already refuses a taken name when routes run one at a time. Any insert failure is the parameter `insertFails` and gives 500.
- WalletStore.RunTransaction: a failure of the INSERT is assumed not to draw a value from the id sequence. Only a failure at COMMIT leaves the sequence advanced.
- Auth.FindUserCI: `queryOne` without ORDER BY returns an unspecified matching row. It is a ghost choice. On a table whose names are distinct ignoring case, `UserLoginUnique` shows the choice is forced.
- The dashboard SQL. The `GROUP BY` aggregate rows are a parameter of `BuildStallRecord`. The two aggregate queries are the ghost function `Totals` over the tables.
- The ORDER BY of the users list and the stalls list. Both come from the database as given. No order is proved about them.
- AdminView.StallIds: JavaScript's `sort` compares UTF-16 code units. `LexLess` compares Dafny characters, which differ from UTF-16 only for characters outside the Basic Multilingual Plane.
- LoginForm.RegisterForm: `|s|` counts characters, while JavaScript's `.length` (app/page.tsx:66) counts UTF-16 code units. A name with characters outside the Basic Multilingual Plane can therefore meet a different length guard than in the browser.
- Auth.FindStall: the stall query has no ORDER BY, and stall_id is unique only case-sensitively (the seed uses `ON CONFLICT (stall_id)`), so two rows can match ignoring case. The model picks the first matching row in table order, which is one of the rows the query may return.
- Common.Lower: only ASCII letters are folded. JavaScript's `toLowerCase` and SQL `LOWER` also fold non-ASCII letters.
- Cart: a JavaScript object lists integer-like keys before the other keys. The cart is modelled as a list in the order names were first set, so a numeric item name would be ordered differently.
- The UI. Rendering, `fetch`, the router, polling, `whoami` and menu fetches, and timestamps are not modelled. `created_at` order is insertion order.
- app/api/seed/route.ts is not part of this model; it is a fixed-data setup script.
- Auth.UidExamplePadded covers only a count of 0. `UidRoundTrip` covers every count.
