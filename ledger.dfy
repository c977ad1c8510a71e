/** The `tokens` table as a sequence in insertion order: the per-stall
    token number that order placement assigns, the invariant it keeps, the
    stall-scoped status update, and the two read routes
    (app/api/tokens/route.ts, app/api/tokens/stall/route.ts). */
module Ledger {
  import opened Common
  import opened Domain

  // ---------------------------------------------------------------------
  // Token numbers
  // ---------------------------------------------------------------------

  /** How many tokens of stall s the sequence holds. */
  function CountStall(ts: seq<Token>, s: string): nat
  {
    if ts == [] then 0
    else CountStall(ts[..|ts| - 1], s) + (if ts[|ts| - 1].stallId == s then 1 else 0)
  }

  /** `MAX(token_no) ... WHERE stall_id = s`; SQL's NULL for no row is None. */
  function MaxTokenNo(ts: seq<Token>, s: string): (r: Option<int>)
    ensures r.None? <==> forall i :: 0 <= i < |ts| ==> ts[i].stallId != s
    ensures r.Some? ==> exists i :: 0 <= i < |ts| && ts[i].stallId == s && ts[i].tokenNo == r.value
    ensures r.Some? ==> forall i :: 0 <= i < |ts| && ts[i].stallId == s ==> ts[i].tokenNo <= r.value
  {
    if ts == [] then None
    else
      var m := MaxTokenNo(ts[..|ts| - 1], s);
      var t := ts[|ts| - 1];
      if t.stallId != s then m
      else match m
        case None => Some(t.tokenNo)
        case Some(v) => Some(if t.tokenNo > v then t.tokenNo else v)
  }

  /** `COALESCE(MAX(token_no), 0) + 1`. */
  function NextTokenNo(ts: seq<Token>, s: string): (r: int)
    ensures (forall i :: 0 <= i < |ts| ==> ts[i].stallId != s) ==> r == 1
    ensures forall i :: 0 <= i < |ts| && ts[i].stallId == s ==> ts[i].tokenNo < r
  {
    match MaxTokenNo(ts, s)
    case None => 1
    case Some(m) => m + 1
  }

  /** Every token's number is one more than the number of earlier tokens
      of the same stall: each stall's numbers run 1, 2, 3, ... in order. */
  ghost predicate DenseTokenNumbers(ts: seq<Token>)
    decreases |ts|
  {
    ts == []
    || (DenseTokenNumbers(ts[..|ts| - 1])
        && ts[|ts| - 1].tokenNo == CountStall(ts[..|ts| - 1], ts[|ts| - 1].stallId) + 1)
  }

  /** The same invariant read at any position. */
  lemma {:induction false} DenseAt(ts: seq<Token>, i: nat)
    requires DenseTokenNumbers(ts) && i < |ts|
    ensures ts[i].tokenNo == CountStall(ts[..i], ts[i].stallId) + 1
  {
    var init := ts[..|ts| - 1];
    if i < |ts| - 1 {
      DenseAt(init, i);
      assert init[..i] == ts[..i];
    }
  }

  /** On a dense sequence the maximum number of a stall is its token count. */
  lemma {:induction false} DenseMax(ts: seq<Token>, s: string)
    requires DenseTokenNumbers(ts)
    ensures MaxTokenNo(ts, s) == if CountStall(ts, s) == 0 then None else Some(CountStall(ts, s))
  {
    if ts != [] {
      var init := ts[..|ts| - 1];
      DenseMax(init, s);
    }
  }

  lemma DenseNext(ts: seq<Token>, s: string)
    requires DenseTokenNumbers(ts)
    ensures NextTokenNo(ts, s) == CountStall(ts, s) + 1
  {
    DenseMax(ts, s);
  }

  /** Appending a token numbered `NextTokenNo` keeps the numbers dense. */
  lemma DenseAppend(ts: seq<Token>, t: Token)
    requires DenseTokenNumbers(ts)
    requires t.tokenNo == NextTokenNo(ts, t.stallId)
    ensures DenseTokenNumbers(ts + [t])
  {
    DenseNext(ts, t.stallId);
    assert (ts + [t])[..|ts|] == ts;
  }

  lemma {:induction false} CountPrefixMonotone(ts: seq<Token>, s: string, i: nat, j: nat)
    requires i <= j <= |ts|
    ensures CountStall(ts[..i], s) <= CountStall(ts[..j], s)
    decreases j - i
  {
    if i < j {
      CountPrefixMonotone(ts, s, i, j - 1);
      assert ts[..j][..j - 1] == ts[..j - 1];
    }
  }

  /** Within one stall, numbers strictly increase in insertion order: no
      stall ever holds two tokens with the same number. */
  lemma DenseIncreasing(ts: seq<Token>, i: nat, j: nat)
    requires DenseTokenNumbers(ts)
    requires i < j < |ts| && ts[i].stallId == ts[j].stallId
    ensures ts[i].tokenNo < ts[j].tokenNo
  {
    var s := ts[i].stallId;
    DenseAt(ts, i);
    DenseAt(ts, j);
    CountPrefixMonotone(ts, s, i + 1, j);
    assert ts[..i + 1][..i] == ts[..i];
  }

  /** The numbers a stall's tokens carry. */
  ghost function TokenNumbers(ts: seq<Token>, s: string): set<int> {
    set i | 0 <= i < |ts| && ts[i].stallId == s :: ts[i].tokenNo
  }

  /** After N orders at a stall its numbers are exactly {1, ..., N}. */
  lemma {:induction false} DenseNumbersExact(ts: seq<Token>, s: string)
    requires DenseTokenNumbers(ts)
    ensures TokenNumbers(ts, s) == OneTo(CountStall(ts, s))
  {
    if ts != [] {
      var init := ts[..|ts| - 1];
      var t := ts[|ts| - 1];
      DenseNumbersExact(init, s);
      assert ts[..|ts| - 1] == init;
      var c := CountStall(init, s);
      if t.stallId == s {
        assert TokenNumbers(ts, s) == TokenNumbers(init, s) + {t.tokenNo} by {
          forall i | 0 <= i < |ts| - 1 ensures ts[i] == init[i] { }
        }
      } else {
        assert TokenNumbers(ts, s) == TokenNumbers(init, s) by {
          forall i | 0 <= i < |ts| - 1 ensures ts[i] == init[i] { }
        }
      }
    }
  }

  /** Two sequences whose tokens sit at the same stalls count alike. */
  lemma {:induction false} CountSameStalls(ts: seq<Token>, us: seq<Token>, s: string)
    requires |ts| == |us|
    requires forall i :: 0 <= i < |ts| ==> ts[i].stallId == us[i].stallId
    ensures CountStall(ts, s) == CountStall(us, s)
  {
    if ts != [] {
      CountSameStalls(ts[..|ts| - 1], us[..|us| - 1], s);
    }
  }

  /** Density depends only on each token's stall and number. */
  lemma {:induction false} DenseSameNumbers(ts: seq<Token>, us: seq<Token>)
    requires DenseTokenNumbers(ts)
    requires |ts| == |us|
    requires forall i :: 0 <= i < |ts| ==> ts[i].stallId == us[i].stallId && ts[i].tokenNo == us[i].tokenNo
    ensures DenseTokenNumbers(us)
  {
    if ts != [] {
      var n := |ts| - 1;
      DenseSameNumbers(ts[..n], us[..n]);
      CountSameStalls(ts[..n], us[..n], ts[n].stallId);
    }
  }

  // ---------------------------------------------------------------------
  // Ids
  // ---------------------------------------------------------------------

  /** The SERIAL ids: increasing in insertion order and below the next one. */
  ghost predicate IdsBelow(ts: seq<Token>, next: int) {
    (forall i, j :: 0 <= i < j < |ts| ==> ts[i].id < ts[j].id)
    && (forall i :: 0 <= i < |ts| ==> ts[i].id < next)
  }

  // ---------------------------------------------------------------------
  // PATCH: UPDATE tokens SET status = $1 WHERE id = $2 AND stall_id = $3
  // ---------------------------------------------------------------------

  predicate Targets(t: Token, id: int, stallId: string) {
    t.id == id && t.stallId == stallId
  }

  /** True when some row matches the WHERE clause (RETURNING gives a row). */
  predicate HasTarget(ts: seq<Token>, id: int, stallId: string) {
    exists i :: 0 <= i < |ts| && Targets(ts[i], id, stallId)
  }

  /** The rows after the UPDATE: matching rows take the new status. */
  function SetStatusWhere(ts: seq<Token>, id: int, stallId: string, st: Status): (r: seq<Token>)
    ensures |r| == |ts|
  {
    if ts == [] then []
    else [if Targets(ts[0], id, stallId) then ts[0].(status := st) else ts[0]]
         + SetStatusWhere(ts[1..], id, stallId, st)
  }

  /** Only the status of a matching row changes; every other row, and every
      other field, stays as it was. */
  lemma {:induction false} SetStatusWhereAt(ts: seq<Token>, id: int, stallId: string, st: Status, i: nat)
    requires i < |ts|
    ensures SetStatusWhere(ts, id, stallId, st)[i]
            == if Targets(ts[i], id, stallId) then ts[i].(status := st) else ts[i]
  {
    if i > 0 {
      SetStatusWhereAt(ts[1..], id, stallId, st, i - 1);
    }
  }

  /** Without a matching row the UPDATE leaves the table as it was: a stall
      cannot alter another stall's token. */
  lemma SetStatusNoTarget(ts: seq<Token>, id: int, stallId: string, st: Status)
    requires !HasTarget(ts, id, stallId)
    ensures SetStatusWhere(ts, id, stallId, st) == ts
  {
    var r := SetStatusWhere(ts, id, stallId, st);
    forall i | 0 <= i < |ts| ensures r[i] == ts[i] {
      SetStatusWhereAt(ts, id, stallId, st, i);
    }
  }

  /** Setting the same status twice gives the state of setting it once. */
  lemma SetStatusIdempotent(ts: seq<Token>, id: int, stallId: string, st: Status)
    ensures SetStatusWhere(SetStatusWhere(ts, id, stallId, st), id, stallId, st)
            == SetStatusWhere(ts, id, stallId, st)
  {
    var once := SetStatusWhere(ts, id, stallId, st);
    var twice := SetStatusWhere(once, id, stallId, st);
    forall i | 0 <= i < |ts| ensures twice[i] == once[i] {
      SetStatusWhereAt(ts, id, stallId, st, i);
      SetStatusWhereAt(once, id, stallId, st, i);
    }
  }

  /** The update keeps every token's stall, number and id, so it keeps the
      per-stall numbering and the id order. */
  lemma SetStatusKeepsInvariants(ts: seq<Token>, next: int, id: int, stallId: string, st: Status)
    requires DenseTokenNumbers(ts) && IdsBelow(ts, next)
    ensures DenseTokenNumbers(SetStatusWhere(ts, id, stallId, st))
    ensures IdsBelow(SetStatusWhere(ts, id, stallId, st), next)
  {
    var r := SetStatusWhere(ts, id, stallId, st);
    forall i | 0 <= i < |ts| ensures r[i].stallId == ts[i].stallId && r[i].tokenNo == ts[i].tokenNo && r[i].id == ts[i].id {
      SetStatusWhereAt(ts, id, stallId, st, i);
    }
    DenseSameNumbers(ts, r);
  }

  /** With distinct ids at most one row matches, so exactly the one token
      with that id changes. */
  lemma SetStatusSingleRow(ts: seq<Token>, next: int, id: int, stallId: string, st: Status, i: nat, j: nat)
    requires IdsBelow(ts, next)
    requires i < |ts| && j < |ts| && Targets(ts[i], id, stallId) && j != i
    ensures SetStatusWhere(ts, id, stallId, st)[j] == ts[j]
    ensures SetStatusWhere(ts, id, stallId, st)[i] == ts[i].(status := st)
  {
    SetStatusWhereAt(ts, id, stallId, st, i);
    SetStatusWhereAt(ts, id, stallId, st, j);
  }

  // ---------------------------------------------------------------------
  // GET routes
  // ---------------------------------------------------------------------

  predicate OwnedBy(t: Token, username: string) { t.username == username }
  predicate AtStall(t: Token, stallId: string) { t.stallId == stallId }

  /** `WHERE username = $1 ORDER BY created_at DESC`. */
  function UserTokens(ts: seq<Token>, username: string): seq<Token> {
    Reversed(Filter(ts, t => OwnedBy(t, username)))
  }

  /** `WHERE stall_id = $1 ORDER BY token_no DESC`, written as the reversed
      insertion order; StallQueueSorted shows the two agree. */
  function StallQueue(ts: seq<Token>, stallId: string): seq<Token> {
    Reversed(Filter(ts, t => AtStall(t, stallId)))
  }

  /** GET /api/tokens. */
  function MyTokens(session: Option<SessionPayload>, ts: seq<Token>): (r: Result<seq<Token>, ApiError>)
    ensures !(session.Some? && session.value.UserSession?) <==> r == Err(Unauthorized)
    ensures r.Ok? ==> forall t :: t in r.value ==> t in ts && t.username == session.value.username
    ensures r.Ok? ==> r.value == UserTokens(ts, session.value.username)
  {
    match session
    case Some(UserSession(u, _)) =>
      var r := UserTokens(ts, u);
      assert forall t :: t in r ==> t in Filter(ts, x => OwnedBy(x, u));
      FilterAllMembers(ts, x => OwnedBy(x, u));
      Ok(r)
    case _ => Err(Unauthorized)
  }

  /** GET /api/tokens/stall. */
  function StallTokens(session: Option<SessionPayload>, ts: seq<Token>): (r: Result<seq<Token>, ApiError>)
    ensures !(session.Some? && session.value.StallSession?) <==> r == Err(Unauthorized)
    ensures r.Ok? ==> forall t :: t in r.value ==> t in ts && t.stallId == session.value.stallId
    ensures r.Ok? ==> r.value == StallQueue(ts, session.value.stallId)
  {
    match session
    case Some(StallSession(s, _)) =>
      var r := StallQueue(ts, s);
      assert forall t :: t in r ==> t in Filter(ts, x => AtStall(x, s));
      FilterAllMembers(ts, x => AtStall(x, s));
      Ok(r)
    case _ => Err(Unauthorized)
  }

  /** The stall's queue holds exactly that stall's tokens. */
  lemma StallQueueMembers(ts: seq<Token>, stallId: string, t: Token)
    ensures t in StallQueue(ts, stallId) <==> t in ts && t.stallId == stallId
  {
    var f := Filter(ts, x => AtStall(x, stallId));
    FilterMembership(ts, x => AtStall(x, stallId), t);
    assert (t in Reversed(f)) == (t in multiset(Reversed(f)));
  }

  /** The user's history holds exactly that user's tokens. */
  lemma UserTokensMembers(ts: seq<Token>, username: string, t: Token)
    ensures t in UserTokens(ts, username) <==> t in ts && t.username == username
  {
    var f := Filter(ts, x => OwnedBy(x, username));
    FilterMembership(ts, x => OwnedBy(x, username), t);
    assert (t in Reversed(f)) == (t in multiset(Reversed(f)));
  }

  /** Filtering keeps an order that held among the kept elements. */
  lemma {:induction false} FilterIncreasing(ts: seq<Token>, p: Token -> bool, key: Token -> int)
    requires forall a, b :: 0 <= a < b < |ts| && p(ts[a]) && p(ts[b]) ==> key(ts[a]) < key(ts[b])
    ensures forall i, j :: 0 <= i < j < |Filter(ts, p)| ==> key(Filter(ts, p)[i]) < key(Filter(ts, p)[j])
  {
    if ts != [] {
      var tail := ts[1..];
      forall a, b | 0 <= a < b < |tail| && p(tail[a]) && p(tail[b]) ensures key(tail[a]) < key(tail[b]) {
        assert tail[a] == ts[a + 1] && tail[b] == ts[b + 1];
      }
      FilterIncreasing(tail, p, key);
      var rest := Filter(tail, p);
      if p(ts[0]) {
        forall x | x in rest ensures key(ts[0]) < key(x) {
          FilterMembership(tail, p, x);
          var b :| 0 <= b < |tail| && tail[b] == x;
          assert ts[b + 1] == x;
        }
        var f := Filter(ts, p);
        assert f == [ts[0]] + rest;
        forall i, j | 0 <= i < j < |f| ensures key(f[i]) < key(f[j]) {
          assert f[j] == rest[j - 1];
          if i == 0 {
            assert rest[j - 1] in rest;
          } else {
            assert f[i] == rest[i - 1];
          }
        }
      }
    }
  }

  /** On a dense table the reversed insertion order is the descending
      token-number order that the SQL asks for. */
  lemma StallQueueSorted(ts: seq<Token>, stallId: string)
    requires DenseTokenNumbers(ts)
    ensures forall i, j :: 0 <= i < j < |StallQueue(ts, stallId)| ==>
              StallQueue(ts, stallId)[i].tokenNo > StallQueue(ts, stallId)[j].tokenNo
  {
    var p := (t: Token) => AtStall(t, stallId);
    var key := (t: Token) => t.tokenNo;
    forall a, b | 0 <= a < b < |ts| && p(ts[a]) && p(ts[b]) ensures key(ts[a]) < key(ts[b]) {
      DenseIncreasing(ts, a, b);
    }
    FilterIncreasing(ts, p, key);
  }

  /** With increasing ids the user's history is newest first. */
  lemma UserTokensNewestFirst(ts: seq<Token>, next: int, username: string)
    requires IdsBelow(ts, next)
    ensures forall i, j :: 0 <= i < j < |UserTokens(ts, username)| ==>
              UserTokens(ts, username)[i].id > UserTokens(ts, username)[j].id
  {
    var p := (t: Token) => OwnedBy(t, username);
    var key := (t: Token) => t.id;
    FilterIncreasing(ts, p, key);
  }
}
