/** The order view of the stall page (app/stall/page.tsx): the status a tap
    on a token asks for, the local update made once the server accepts it,
    and the Pending / Served / All lists. */
module StallView {
  import opened Common
  import opened Domain
  import opened Ledger

  /** The status `toggleStatus` sends: Served goes back to Pending, anything
      else becomes Served. */
  function Toggle(s: Status): (r: Status)
    ensures r != s
  {
    if s == Served then Pending else Served
  }

  lemma ToggleTwice(s: Status)
    ensures Toggle(Toggle(s)) == s
  {
  }

  // ---------------------------------------------------------------------
  // The optimistic update
  // ---------------------------------------------------------------------

  /** `x.id === id ? { ...x, status } : x`. */
  function Mark(t: Token, id: int, st: Status): Token {
    if t.id == id then t.(status := st) else t
  }

  /** `prev.map(x => x.id === id ? { ...x, status } : x)`. */
  function MarkLocal(ts: seq<Token>, id: int, st: Status): (r: seq<Token>)
    ensures |r| == |ts|
    ensures forall i :: 0 <= i < |ts| ==> r[i] == Mark(ts[i], id, st)
  {
    if ts == [] then [] else [Mark(ts[0], id, st)] + MarkLocal(ts[1..], id, st)
  }

  /** The list is changed only when the PATCH reply was ok. */
  function OptimisticUpdate(ts: seq<Token>, replyOk: bool, id: int, st: Status): seq<Token> {
    if replyOk then MarkLocal(ts, id, st) else ts
  }

  /** A refused PATCH leaves the list as it was; an accepted one changes
      the status of the token with that id and nothing else, keeping the
      length and the order of the list. */
  lemma OptimisticUpdateEffect(ts: seq<Token>, replyOk: bool, id: int, st: Status)
    requires forall i, j :: 0 <= i < j < |ts| ==> ts[i].id != ts[j].id
    ensures var r := OptimisticUpdate(ts, replyOk, id, st);
            && |r| == |ts|
            && (!replyOk ==> r == ts)
            && ((forall k :: 0 <= k < |ts| ==> ts[k].id != id) ==> r == ts)
            && (replyOk ==> forall k :: 0 <= k < |ts| && ts[k].id == id ==>
                  && r[k] == ts[k].(status := st)
                  && forall j :: 0 <= j < |ts| && j != k ==> r[j] == ts[j])
  {
  }

  lemma {:induction false} MarkFilterAtStall(ts: seq<Token>, stallId: string, id: int, st: Status)
    ensures Filter(SetStatusWhere(ts, id, stallId, st), t => AtStall(t, stallId))
            == MarkLocal(Filter(ts, t => AtStall(t, stallId)), id, st)
  {
    if ts != [] {
      MarkFilterAtStall(ts[1..], stallId, id, st);
      var after := SetStatusWhere(ts, id, stallId, st);
      assert after[0].stallId == ts[0].stallId;
      assert after[1..] == SetStatusWhere(ts[1..], id, stallId, st);
      var rest := Filter(ts[1..], t => AtStall(t, stallId));
      if AtStall(ts[0], stallId) {
        var f := [ts[0]] + rest;
        assert Filter(ts, t => AtStall(t, stallId)) == f;
        assert f[1..] == rest;
        assert MarkLocal(f, id, st) == [MarkLocal(f, id, st)[0]] + MarkLocal(rest, id, st);
      }
    }
  }

  lemma {:induction false} MarkAppend(a: seq<Token>, x: Token, id: int, st: Status)
    ensures MarkLocal(a + [x], id, st) == MarkLocal(a, id, st) + [Mark(x, id, st)]
  {
    var l := MarkLocal(a + [x], id, st);
    var r := MarkLocal(a, id, st) + [Mark(x, id, st)];
    forall i | 0 <= i < |l| ensures l[i] == r[i] {
      if i < |a| { assert (a + [x])[i] == a[i]; } else { assert (a + [x])[i] == x; }
    }
  }

  /** The update does not depend on the order of the list. */
  lemma {:induction false} MarkReversed(ts: seq<Token>, id: int, st: Status)
    ensures MarkLocal(Reversed(ts), id, st) == Reversed(MarkLocal(ts, id, st))
  {
    if ts != [] {
      MarkReversed(ts[1..], id, st);
      MarkAppend(Reversed(ts[1..]), ts[0], id, st);
      var m := MarkLocal(ts, id, st);
      assert m == [Mark(ts[0], id, st)] + MarkLocal(ts[1..], id, st);
      assert m[1..] == MarkLocal(ts[1..], id, st);
    }
  }

  /** The local update of the stall's list gives the list the server holds
      after the PATCH: the next poll shows what the update showed. */
  lemma OptimisticMatchesServer(ts: seq<Token>, stallId: string, id: int, st: Status)
    ensures MarkLocal(StallQueue(ts, stallId), id, st) == StallQueue(SetStatusWhere(ts, id, stallId, st), stallId)
  {
    MarkFilterAtStall(ts, stallId, id, st);
    MarkReversed(Filter(ts, t => AtStall(t, stallId)), id, st);
  }

  // ---------------------------------------------------------------------
  // pending, served, display
  // ---------------------------------------------------------------------

  predicate IsPending(t: Token) { t.status == Pending }

  predicate IsServed(t: Token) { t.status == Served }

  function PendingOf(ts: seq<Token>): seq<Token> { Filter(ts, IsPending) }

  function ServedOf(ts: seq<Token>): seq<Token> { Filter(ts, IsServed) }

  /** The two lists keep the order of the tokens, share no token, and
      together hold every token, since a status is Pending or Served. */
  lemma PendingServedPartition(ts: seq<Token>)
    ensures multiset(PendingOf(ts)) + multiset(ServedOf(ts)) == multiset(ts)
    ensures |PendingOf(ts)| + |ServedOf(ts)| == |ts|
    ensures IsSubsequence(PendingOf(ts), ts) && IsSubsequence(ServedOf(ts), ts)
    ensures forall t :: t in PendingOf(ts) ==> t !in ServedOf(ts)
  {
    FilterPartition(ts, IsPending, IsServed);
    FilterSubsequence(ts, IsPending);
    FilterSubsequence(ts, IsServed);
    PendingServedDisjoint(ts);
  }

  lemma PendingServedDisjoint(ts: seq<Token>)
    ensures forall t :: t in PendingOf(ts) ==> t !in ServedOf(ts)
  {
    forall t | t in PendingOf(ts) ensures t !in ServedOf(ts) {
      FilterMembership(ts, IsPending, t);
      FilterMembership(ts, IsServed, t);
    }
  }

  datatype ViewFilter = ShowPending | ShowServed | ShowAll

  predicate Shows(f: ViewFilter, st: Status) {
    match f
    case ShowPending => st == Pending
    case ShowServed => st == Served
    case ShowAll => true
  }

  /** `display`. */
  function Display(f: ViewFilter, ts: seq<Token>): seq<Token> {
    match f
    case ShowPending => PendingOf(ts)
    case ShowServed => ServedOf(ts)
    case ShowAll => ts
  }

  /** The list shown holds exactly the tokens whose status the filter
      selects, in the order of the tokens. */
  lemma DisplayMembers(f: ViewFilter, ts: seq<Token>, t: Token)
    ensures t in Display(f, ts) <==> t in ts && Shows(f, t.status)
    ensures IsSubsequence(Display(f, ts), ts)
  {
    match f
    case ShowPending =>
      FilterMembership(ts, IsPending, t);
      FilterSubsequence(ts, IsPending);
    case ShowServed =>
      FilterMembership(ts, IsServed, t);
      FilterSubsequence(ts, IsServed);
    case ShowAll =>
      SubsequenceRefl(ts);
  }
}
