/** The transaction and user lists of the admin page (app/admin/page.tsx):
    the three chained transaction filters with their revenue, the sorted
    list of stall ids the stall filter offers, the user search and the
    list of accounts a top-up may be sent to. */
module AdminView {
  import opened Common
  import opened Domain
  import opened Ledger
  import opened Admin

  // ---------------------------------------------------------------------
  // filteredTxns and filteredRevenue
  // ---------------------------------------------------------------------

  /** `txStall === 'All' || t.stall_id === txStall`. */
  predicate KeepStall(stall: string, t: Token) { stall == "All" || t.stallId == stall }

  /** `txStatus === 'All' || t.status === txStatus`. */
  predicate KeepStatus(status: string, t: Token) { status == "All" || StatusName(t.status) == status }

  /** `!txUser.trim() || t.username.toLowerCase().includes(txUser.toLowerCase())`:
      the blank test trims the query, the match does not. */
  predicate KeepUser(user: string, t: Token) { Trim(user) == "" || Contains(Lower(t.username), Lower(user)) }

  predicate KeepAll(stall: string, status: string, user: string, t: Token) {
    KeepStall(stall, t) && KeepStatus(status, t) && KeepUser(user, t)
  }

  function FilteredTxns(txns: seq<Token>, stall: string, status: string, user: string): seq<Token> {
    Filter(Filter(Filter(txns, t => KeepStall(stall, t)), t => KeepStatus(status, t)), t => KeepUser(user, t))
  }

  /** filteredTxns is the one filter by the three conditions together, so it
      holds exactly the transactions meeting all three, in their order. */
  lemma FilteredTxnsIsOneFilter(txns: seq<Token>, stall: string, status: string, user: string)
    ensures FilteredTxns(txns, stall, status, user) == Filter(txns, t => KeepAll(stall, status, user, t))
  {
    FilterFilter(txns, t => KeepStall(stall, t), t => KeepStatus(status, t),
                 t => KeepStall(stall, t) && KeepStatus(status, t));
    FilterFilter(txns, t => KeepStall(stall, t) && KeepStatus(status, t), t => KeepUser(user, t),
                 t => KeepAll(stall, status, user, t));
  }

  lemma FilteredTxnsMembers(txns: seq<Token>, stall: string, status: string, user: string, t: Token)
    ensures t in FilteredTxns(txns, stall, status, user) <==> t in txns && KeepAll(stall, status, user, t)
    ensures IsSubsequence(FilteredTxns(txns, stall, status, user), txns)
  {
    FilteredTxnsIsOneFilter(txns, stall, status, user);
    FilterMembership(txns, x => KeepAll(stall, status, user, x), t);
    FilterSubsequence(txns, x => KeepAll(stall, status, user, x));
  }

  /** With both selectors on 'All' and a blank user box every transaction is
      listed. */
  lemma FilteredTxnsUnfiltered(txns: seq<Token>, user: string)
    requires Trim(user) == ""
    ensures FilteredTxns(txns, "All", "All", user) == txns
  {
    FilterAll(txns, t => KeepStall("All", t));
    FilterAll(txns, t => KeepStatus("All", t));
    FilterAll(txns, t => KeepUser(user, t));
  }

  /** `filteredTxns.reduce((s, t) => s + Number(t.total), 0)`. */
  function FilteredRevenue(txns: seq<Token>, stall: string, status: string, user: string): int {
    SumTotals(FilteredTxns(txns, stall, status, user))
  }

  lemma {:induction false} SumTotalsPrepend(t: Token, ts: seq<Token>)
    ensures SumTotals([t] + ts) == t.total + SumTotals(ts)
    decreases |ts|
  {
    if ts != [] {
      var init := ts[..|ts| - 1];
      SumTotalsPrepend(t, init);
      assert ([t] + ts)[..|ts|] == [t] + init;
    }
  }

  /** The revenue does not depend on the order of the transactions. */
  lemma {:induction false} SumTotalsReversed(ts: seq<Token>)
    ensures SumTotals(Reversed(ts)) == SumTotals(ts)
  {
    if ts != [] {
      SumTotalsReversed(ts[1..]);
      SumTotalsAppend(Reversed(ts[1..]), ts[0]);
      SumTotalsPrepend(ts[0], ts[1..]);
      assert ts == [ts[0]] + ts[1..];
    }
  }

  /** With no filter, the page's revenue over the tokens resource is the
      dashboard's total revenue. */
  lemma UnfilteredRevenueIsDashboardRevenue(users: map<string, UserRow>, ts: seq<Token>, user: string)
    requires Trim(user) == ""
    ensures FilteredRevenue(AllTokens(ts), "All", "All", user) == Totals(users, ts).totalRevenue
  {
    FilteredTxnsUnfiltered(AllTokens(ts), user);
    SumTotalsReversed(ts);
  }

  // ---------------------------------------------------------------------
  // stallIds: [...new Set(txns.map(t => t.stall_id))].sort()
  // ---------------------------------------------------------------------

  /** The default order of `Array.prototype.sort` on strings: lexicographic
      by character code, a proper prefix first. */
  predicate LexLess(a: string, b: string)
    decreases |a|
  {
    if a == [] then b != []
    else if b == [] then false
    else if a[0] != b[0] then a[0] < b[0]
    else LexLess(a[1..], b[1..])
  }

  lemma {:induction false} LexIrreflexive(a: string)
    ensures !LexLess(a, a)
  {
    if a != [] {
      LexIrreflexive(a[1..]);
    }
  }

  lemma {:induction false} LexTransitive(a: string, b: string, c: string)
    requires LexLess(a, b) && LexLess(b, c)
    ensures LexLess(a, c)
    decreases |a|
  {
    if a != [] && b != [] && c != [] && a[0] == b[0] && b[0] == c[0] {
      LexTransitive(a[1..], b[1..], c[1..]);
    }
  }

  lemma {:induction false} LexTotal(a: string, b: string)
    requires a != b
    ensures LexLess(a, b) || LexLess(b, a)
    decreases |a|
  {
    if a != [] && b != [] && a[0] == b[0] {
      assert a == [a[0]] + a[1..] && b == [b[0]] + b[1..];
      LexTotal(a[1..], b[1..]);
    }
  }

  lemma {:induction false} LexAsymmetric(a: string, b: string)
    requires LexLess(a, b)
    ensures !LexLess(b, a)
  {
    if !LexLess(b, a) {
    } else {
      LexTransitive(a, b, a);
      LexIrreflexive(a);
    }
  }

  /** Ascending with no repeats: sorted and duplicate-free. */
  predicate StrictlySorted(s: seq<string>) {
    forall i, j :: 0 <= i < j < |s| ==> LexLess(s[i], s[j])
  }

  /** Adds x at its place unless it is already there. */
  function Insert(s: seq<string>, x: string): seq<string> {
    if s == [] then [x]
    else if x == s[0] then s
    else if LexLess(x, s[0]) then [x] + s
    else [s[0]] + Insert(s[1..], x)
  }

  lemma {:induction false} InsertMembers(s: seq<string>, x: string, y: string)
    ensures y in Insert(s, x) <==> y in s || y == x
  {
    if s != [] && x != s[0] && !LexLess(x, s[0]) {
      InsertMembers(s[1..], x, y);
      assert s == [s[0]] + s[1..];
    }
  }

  lemma {:induction false} InsertSorted(s: seq<string>, x: string)
    requires StrictlySorted(s)
    ensures StrictlySorted(Insert(s, x))
  {
    if s == [] || x == s[0] {
    } else if LexLess(x, s[0]) {
      forall j | 0 <= j < |s| ensures LexLess(x, s[j]) {
        if j > 0 { LexTransitive(x, s[0], s[j]); }
      }
      var r := [x] + s;
      assert forall j :: 1 <= j < |r| ==> r[j] == s[j - 1];
    } else {
      LexTotal(x, s[0]);
      var tail := s[1..];
      assert StrictlySorted(tail) by {
        forall i, j | 0 <= i < j < |tail| ensures LexLess(tail[i], tail[j]) {
          assert tail[i] == s[i + 1] && tail[j] == s[j + 1];
        }
      }
      InsertSorted(tail, x);
      var rest := Insert(tail, x);
      forall j | 0 <= j < |rest| ensures LexLess(s[0], rest[j]) {
        InsertMembers(tail, x, rest[j]);
        if rest[j] != x {
          var k :| 0 <= k < |tail| && tail[k] == rest[j];
          assert s[k + 1] == rest[j];
        }
      }
      ConsSorted(s[0], rest);
    }
  }

  lemma ConsSorted(h: string, r: seq<string>)
    requires StrictlySorted(r)
    requires forall j :: 0 <= j < |r| ==> LexLess(h, r[j])
    ensures StrictlySorted([h] + r)
  {
    var c := [h] + r;
    forall i, j | 0 <= i < j < |c| ensures LexLess(c[i], c[j]) {
      assert c[j] == r[j - 1];
      if i > 0 { assert c[i] == r[i - 1]; }
    }
  }

  /** The stall ids of the transactions, each once, in sorted order. */
  function StallIds(txns: seq<Token>): (r: seq<string>)
    ensures StrictlySorted(r)
    ensures forall id :: id in r <==> exists i :: 0 <= i < |txns| && txns[i].stallId == id
  {
    if txns == [] then []
    else
      var init := txns[..|txns| - 1];
      var last := txns[|txns| - 1].stallId;
      var rest := StallIds(init);
      InsertSorted(rest, last);
      StallIdsStep(txns, rest, last);
      Insert(rest, last)
  }

  lemma StallIdsStep(txns: seq<Token>, rest: seq<string>, last: string)
    requires txns != [] && last == txns[|txns| - 1].stallId
    requires forall id :: id in rest <==> exists i :: 0 <= i < |txns| - 1 && txns[i].stallId == id
    ensures forall id :: id in Insert(rest, last) <==> exists i :: 0 <= i < |txns| && txns[i].stallId == id
  {
    forall id ensures id in Insert(rest, last) <==> exists i :: 0 <= i < |txns| && txns[i].stallId == id {
      InsertMembers(rest, last, id);
      if id == last {
        assert txns[|txns| - 1].stallId == id;
      }
    }
  }

  /** A strictly sorted sequence holds no value twice. */
  lemma StrictlySortedDistinct(s: seq<string>)
    requires StrictlySorted(s)
    ensures forall i, j :: 0 <= i < j < |s| ==> s[i] != s[j]
  {
    forall i, j | 0 <= i < j < |s| ensures s[i] != s[j] {
      LexIrreflexive(s[i]);
    }
  }

  /** Two strictly sorted sequences with the same elements are equal, so the
      insertion above builds the list that sorting the set gives. */
  lemma {:induction false} StrictlySortedUnique(a: seq<string>, b: seq<string>)
    requires StrictlySorted(a) && StrictlySorted(b)
    requires forall x :: x in a <==> x in b
    ensures a == b
    decreases |a|
  {
    if a != [] { assert a[0] in b; }
    if b != [] { assert b[0] in a; }
    if a != [] && b != [] {
      if a[0] != b[0] {
        var i :| 0 <= i < |b| && b[i] == a[0];
        var j :| 0 <= j < |a| && a[j] == b[0];
        assert LexLess(b[0], a[0]);
        assert LexLess(a[0], b[0]);
        LexAsymmetric(a[0], b[0]);
        assert false;
      }
      var ta, tb := a[1..], b[1..];
      forall x ensures x in ta <==> x in tb {
        StrictlySortedMin(a, x);
        StrictlySortedMin(b, x);
      }
      assert StrictlySorted(ta) by {
        forall i, j | 0 <= i < j < |ta| ensures LexLess(ta[i], ta[j]) {
          assert ta[i] == a[i + 1] && ta[j] == a[j + 1];
        }
      }
      assert StrictlySorted(tb) by {
        forall i, j | 0 <= i < j < |tb| ensures LexLess(tb[i], tb[j]) {
          assert tb[i] == b[i + 1] && tb[j] == b[j + 1];
        }
      }
      StrictlySortedUnique(ta, tb);
      assert a == [a[0]] + ta && b == [b[0]] + tb;
    }
  }

  /** The tail of a strictly sorted sequence is its elements other than the head. */
  lemma StrictlySortedMin(s: seq<string>, x: string)
    requires StrictlySorted(s) && s != []
    ensures x in s[1..] <==> x in s && x != s[0]
  {
    if x in s[1..] {
      var k :| 0 <= k < |s[1..]| && s[1..][k] == x;
      assert s[k + 1] == x;
      LexIrreflexive(s[0]);
    }
    if x in s && x != s[0] {
      var k :| 0 <= k < |s| && s[k] == x;
      assert s[1..][k - 1] == x;
    }
  }

  // ---------------------------------------------------------------------
  // filteredUsers and the top-up list
  // ---------------------------------------------------------------------

  /** A row of the users resource. */
  datatype UserListing = UserListing(username: string, uid: string, balance: int, blocked: bool)

  /** A blank search keeps every user; otherwise the query must occur in
      the username or in the uid, ignoring case. */
  predicate MatchesSearch(search: string, u: UserListing) {
    Trim(search) == "" || Contains(Lower(u.username), Lower(search)) || Contains(Lower(u.uid), Lower(search))
  }

  function FilteredUsers(users: seq<UserListing>, search: string): seq<UserListing> {
    Filter(users, u => MatchesSearch(search, u))
  }

  lemma FilteredUsersMembers(users: seq<UserListing>, search: string, u: UserListing)
    ensures u in FilteredUsers(users, search) <==> u in users && MatchesSearch(search, u)
    ensures IsSubsequence(FilteredUsers(users, search), users)
    ensures Trim(search) == "" ==> FilteredUsers(users, search) == users
  {
    FilterMembership(users, x => MatchesSearch(search, x), u);
    FilterSubsequence(users, x => MatchesSearch(search, x));
    if Trim(search) == "" {
      FilterAll(users, x => MatchesSearch(search, x));
    }
  }

  predicate Unblocked(u: UserListing) { !u.blocked }

  /** `users.filter(u => !u.blocked)`: the accounts the top-up form offers. */
  function TopupCandidates(users: seq<UserListing>): seq<UserListing> {
    Filter(users, Unblocked)
  }

  lemma TopupCandidatesMembers(users: seq<UserListing>, u: UserListing)
    ensures u in TopupCandidates(users) <==> u in users && !u.blocked
  {
    FilterMembership(users, Unblocked, u);
  }
}
