/** The cart of the user page (app/user/page.tsx): the `setQty` reducer,
    `cartTotal`, `cartCount`, and the request body `handlePay` builds.
    The cart object is a list of lines in the order its keys were first
    set, which is the order `Object.values` and `Object.entries` visit. */
module Cart {
  import opened Common
  import opened Domain

  datatype CartLine = CartLine(name: string, price: int, qty: int)

  type Cart = seq<CartLine>

  /** Keys of an object are distinct. */
  predicate DistinctNames(c: Cart) {
    forall i, j :: 0 <= i < j < |c| ==> c[i].name != c[j].name
  }

  predicate AllPositive(c: Cart) {
    forall i :: 0 <= i < |c| ==> c[i].qty > 0
  }

  predicate HasName(c: Cart, name: string) {
    exists i :: 0 <= i < |c| && c[i].name == name
  }

  /** `prev[name]?.qty ?? 0`: the first line with that name. */
  function QtyOf(c: Cart, name: string): (q: int)
    ensures !HasName(c, name) ==> q == 0
    ensures HasName(c, name) ==> exists i :: 0 <= i < |c| && c[i].name == name && c[i].qty == q
  {
    if c == [] then 0
    else if c[0].name == name then c[0].qty
    else
      assert forall i :: 1 <= i < |c| ==> c[i] == c[1..][i - 1];
      QtyOf(c[1..], name)
  }

  /** `{ ...prev, [name]: { price, qty } }`: an existing key keeps its place,
      a new key goes last. */
  function Put(c: Cart, name: string, price: int, qty: int): (r: Cart)
  {
    if !HasName(c, name) then c + [CartLine(name, price, qty)]
    else Replace(c, name, price, qty)
  }

  function Replace(c: Cart, name: string, price: int, qty: int): (r: Cart)
    ensures |r| == |c|
    ensures forall i :: 0 <= i < |c| ==> r[i] == if c[i].name == name then CartLine(name, price, qty) else c[i]
  {
    if c == [] then []
    else [if c[0].name == name then CartLine(name, price, qty) else c[0]] + Replace(c[1..], name, price, qty)
  }

  /** `delete c[name]`. */
  function Remove(c: Cart, name: string): (r: Cart) {
    Filter(c, (l: CartLine) => l.name != name)
  }

  /** The `setQty` reducer. */
  function SetQty(c: Cart, name: string, price: int, delta: int): Cart {
    var next := QtyOf(c, name) + delta;
    if next <= 0 then Remove(c, name) else Put(c, name, price, next)
  }

  /** A quantity that drops to zero or below removes the line. */
  lemma SetQtyRemoves(c: Cart, name: string, price: int, delta: int)
    requires QtyOf(c, name) + delta <= 0
    ensures !HasName(SetQty(c, name, price, delta), name)
  {
    assert SetQty(c, name, price, delta) == Remove(c, name);
    FilterAllMembers(c, (l: CartLine) => l.name != name);
  }

  /** Otherwise the line holds the new quantity and the passed price. */
  lemma SetQtyStores(c: Cart, name: string, price: int, delta: int)
    requires DistinctNames(c)
    requires QtyOf(c, name) + delta > 0
    ensures var r := SetQty(c, name, price, delta);
            && HasName(r, name) && QtyOf(r, name) == QtyOf(c, name) + delta
            && forall i :: 0 <= i < |r| && r[i].name == name ==> r[i].price == price
  {
    if HasName(c, name) {
      SetQtyStoresExisting(c, name, price, delta);
    } else {
      SetQtyStoresNew(c, name, price, delta);
    }
  }

  lemma SetQtyStoresNew(c: Cart, name: string, price: int, delta: int)
    requires QtyOf(c, name) + delta > 0 && !HasName(c, name)
    ensures var r := SetQty(c, name, price, delta);
            && HasName(r, name) && QtyOf(r, name) == QtyOf(c, name) + delta
            && forall i :: 0 <= i < |r| && r[i].name == name ==> r[i].price == price
  {
    var next := QtyOf(c, name) + delta;
    var r := SetQty(c, name, price, delta);
    assert r == c + [CartLine(name, price, next)];
    assert r[|c|].name == name;
    QtyOfFirst(r, name, |c|);
  }

  lemma SetQtyStoresExisting(c: Cart, name: string, price: int, delta: int)
    requires DistinctNames(c)
    requires QtyOf(c, name) + delta > 0 && HasName(c, name)
    ensures var r := SetQty(c, name, price, delta);
            && HasName(r, name) && QtyOf(r, name) == QtyOf(c, name) + delta
            && forall i :: 0 <= i < |r| && r[i].name == name ==> r[i].price == price
  {
    var next := QtyOf(c, name) + delta;
    assert SetQty(c, name, price, delta) == Replace(c, name, price, next);
    ReplaceStores(c, name, price, next);
  }

  lemma ReplaceStores(c: Cart, name: string, price: int, qty: int)
    requires DistinctNames(c) && HasName(c, name)
    ensures var r := Replace(c, name, price, qty);
            && HasName(r, name) && QtyOf(r, name) == qty
            && forall i :: 0 <= i < |r| && r[i].name == name ==> r[i].price == price
  {
    var r := Replace(c, name, price, qty);
    var i :| 0 <= i < |c| && c[i].name == name;
    assert r[i].name == name;
    QtyOfFirst(r, name, i);
  }

  /** On distinct names, the quantity of a name is the one on its line. */
  lemma {:induction false} QtyOfFirst(c: Cart, name: string, i: nat)
    requires i < |c| && c[i].name == name
    requires forall j :: 0 <= j < i ==> c[j].name != name
    ensures QtyOf(c, name) == c[i].qty
  {
    if i > 0 {
      QtyOfFirst(c[1..], name, i - 1);
    }
  }

  /** `setQty` leaves every other line as it was. */
  lemma SetQtyFrame(c: Cart, name: string, price: int, delta: int, other: string, l: CartLine)
    requires other != name && l.name == other
    ensures l in SetQty(c, name, price, delta) <==> l in c
  {
    var next := QtyOf(c, name) + delta;
    if next <= 0 {
      FilterMembership(c, (x: CartLine) => x.name != name, l);
    } else if HasName(c, name) {
      var r := Replace(c, name, price, next);
      if l in c {
        var i :| 0 <= i < |c| && c[i] == l;
        assert r[i] == l;
      }
      if l in r {
        var i :| 0 <= i < |r| && r[i] == l;
        assert c[i] == l;
      }
    }
  }

  /** Quantities stay positive and keys stay distinct. */
  lemma SetQtyKeepsInvariant(c: Cart, name: string, price: int, delta: int)
    requires AllPositive(c) && DistinctNames(c)
    ensures AllPositive(SetQty(c, name, price, delta)) && DistinctNames(SetQty(c, name, price, delta))
  {
    var next := QtyOf(c, name) + delta;
    if next <= 0 {
      RemoveKeepsInvariant(c, name);
    } else if !HasName(c, name) {
      var r := c + [CartLine(name, price, next)];
      assert forall i :: 0 <= i < |c| ==> r[i] == c[i];
    }
  }

  lemma {:induction false} RemoveKeepsInvariant(c: Cart, name: string)
    requires AllPositive(c) && DistinctNames(c)
    ensures AllPositive(Remove(c, name)) && DistinctNames(Remove(c, name))
  {
    if c != [] {
      RemoveKeepsInvariant(c[1..], name);
      var rest := Remove(c[1..], name);
      FilterAllMembers(c[1..], (l: CartLine) => l.name != name);
      if c[0].name != name {
        assert Remove(c, name) == [c[0]] + rest;
        forall j | 0 <= j < |rest| ensures rest[j].name != c[0].name {
          assert rest[j] in c[1..];
          var k :| 0 <= k < |c[1..]| && c[1..][k] == rest[j];
          assert c[k + 1] == rest[j];
        }
      } else {
        assert Remove(c, name) == rest;
      }
    }
  }

  /** `reduce` over the lines with `s + f(line)`. */
  function SumBy(c: Cart, f: CartLine -> int): int {
    if c == [] then 0 else f(c[0]) + SumBy(c[1..], f)
  }

  function LineTotal(l: CartLine): int { l.price * l.qty }

  function LineQty(l: CartLine): int { l.qty }

  /** `cartTotal`: the sum of price × quantity. */
  function CartTotal(c: Cart): int { SumBy(c, LineTotal) }

  /** `cartCount`: the sum of quantities. */
  function CartCount(c: Cart): int { SumBy(c, LineQty) }

  /** Both sums are 0 on the empty cart and non-negative on a cart of
      positive quantities and non-negative prices. */
  lemma {:induction false} CartSumsNonNegative(c: Cart)
    requires AllPositive(c)
    ensures CartCount(c) >= |c|
    ensures (forall i :: 0 <= i < |c| ==> c[i].price >= 0) ==> CartTotal(c) >= 0
    ensures c == [] ==> CartTotal(c) == 0 && CartCount(c) == 0
  {
    if c != [] {
      CartSumsNonNegative(c[1..]);
    }
  }

  /** The sum over the lines carrying a name. */
  function NamedSum(c: Cart, name: string, f: CartLine -> int): int {
    if c == [] then 0 else (if c[0].name == name then f(c[0]) else 0) + NamedSum(c[1..], name, f)
  }

  lemma {:induction false} SumRemove(c: Cart, name: string, f: CartLine -> int)
    ensures SumBy(Remove(c, name), f) == SumBy(c, f) - NamedSum(c, name, f)
  {
    if c != [] {
      SumRemove(c[1..], name, f);
      if c[0].name != name {
        assert Remove(c, name) == [c[0]] + Remove(c[1..], name);
      } else {
        assert Remove(c, name) == Remove(c[1..], name);
      }
    }
  }

  lemma {:induction false} SumReplace(c: Cart, name: string, price: int, qty: int, f: CartLine -> int)
    requires DistinctNames(c)
    ensures SumBy(Replace(c, name, price, qty), f)
            == SumBy(c, f) - NamedSum(c, name, f) + (if HasName(c, name) then f(CartLine(name, price, qty)) else 0)
  {
    if c != [] {
      assert DistinctNames(c[1..]) by {
        forall i, j | 0 <= i < j < |c[1..]| ensures c[1..][i].name != c[1..][j].name {
          assert c[1..][i] == c[i + 1] && c[1..][j] == c[j + 1];
        }
      }
      SumReplace(c[1..], name, price, qty, f);
      assert Replace(c, name, price, qty)[1..] == Replace(c[1..], name, price, qty);
      if c[0].name == name {
        NamedSumAbsent(c[1..], name, f);
        assert !HasName(c[1..], name) by {
          forall i | 0 <= i < |c[1..]| ensures c[1..][i].name != name {
            assert c[1..][i] == c[i + 1];
          }
        }
      } else {
        assert HasName(c, name) == HasName(c[1..], name) by {
          if HasName(c, name) {
            var i :| 0 <= i < |c| && c[i].name == name;
            assert c[1..][i - 1] == c[i];
          }
          if HasName(c[1..], name) {
            var i :| 0 <= i < |c[1..]| && c[1..][i].name == name;
            assert c[i + 1] == c[1..][i];
          }
        }
      }
    }
  }

  lemma {:induction false} NamedSumAbsent(c: Cart, name: string, f: CartLine -> int)
    requires forall i :: 0 <= i < |c| ==> c[i].name != name
    ensures NamedSum(c, name, f) == 0
  {
    if c != [] {
      NamedSumAbsent(c[1..], name, f);
    }
  }

  lemma {:induction false} SumAppend(c: Cart, l: CartLine, f: CartLine -> int)
    ensures SumBy(c + [l], f) == SumBy(c, f) + f(l)
  {
    if c != [] {
      SumAppend(c[1..], l, f);
      assert (c + [l])[1..] == c[1..] + [l];
    }
  }

  lemma SetQtySumRemoved(c: Cart, name: string, price: int, delta: int, f: CartLine -> int)
    requires QtyOf(c, name) + delta <= 0
    ensures SumBy(SetQty(c, name, price, delta), f) == SumBy(c, f) - NamedSum(c, name, f)
  {
    assert SetQty(c, name, price, delta) == Remove(c, name);
    SumRemove(c, name, f);
  }

  lemma SetQtySumReplaced(c: Cart, name: string, price: int, delta: int, f: CartLine -> int)
    requires DistinctNames(c)
    requires QtyOf(c, name) + delta > 0 && HasName(c, name)
    ensures SumBy(SetQty(c, name, price, delta), f)
            == SumBy(c, f) - NamedSum(c, name, f) + f(CartLine(name, price, QtyOf(c, name) + delta))
  {
    var next := QtyOf(c, name) + delta;
    assert SetQty(c, name, price, delta) == Replace(c, name, price, next);
    SumReplace(c, name, price, next, f);
  }

  lemma SetQtySumAdded(c: Cart, name: string, price: int, delta: int, f: CartLine -> int)
    requires QtyOf(c, name) + delta > 0 && !HasName(c, name)
    ensures SumBy(SetQty(c, name, price, delta), f)
            == SumBy(c, f) - NamedSum(c, name, f) + f(CartLine(name, price, QtyOf(c, name) + delta))
  {
    var l := CartLine(name, price, QtyOf(c, name) + delta);
    assert SetQty(c, name, price, delta) == c + [l];
    SumAppendNew(c, l, f);
  }

  lemma SumAppendNew(c: Cart, l: CartLine, f: CartLine -> int)
    requires !HasName(c, l.name)
    ensures SumBy(c + [l], f) == SumBy(c, f) - NamedSum(c, l.name, f) + f(l)
  {
    NamedSumAbsent(c, l.name, f);
    SumAppend(c, l, f);
  }

  /** Any sum over the lines changes by the old line's share going out and
      the new line's share coming in. */
  lemma SetQtySum(c: Cart, name: string, price: int, delta: int, f: CartLine -> int)
    requires DistinctNames(c)
    ensures var next := QtyOf(c, name) + delta;
            SumBy(SetQty(c, name, price, delta), f)
              == SumBy(c, f) - NamedSum(c, name, f) + (if next <= 0 then 0 else f(CartLine(name, price, next)))
  {
    if QtyOf(c, name) + delta <= 0 {
      SetQtySumRemoved(c, name, price, delta, f);
    } else if HasName(c, name) {
      SetQtySumReplaced(c, name, price, delta, f);
    } else {
      SetQtySumAdded(c, name, price, delta, f);
    }
  }

  /** `cartTotal` after `setQty`: the old line's share goes out and the new
      line's price times quantity comes in. */
  lemma SetQtyTotal(c: Cart, name: string, price: int, delta: int)
    requires DistinctNames(c)
    ensures var next := QtyOf(c, name) + delta;
            CartTotal(SetQty(c, name, price, delta))
              == CartTotal(c) - NamedSum(c, name, LineTotal) + (if next <= 0 then 0 else price * next)
  {
    var next := QtyOf(c, name) + delta;
    var before, gone := CartTotal(c), NamedSum(c, name, LineTotal);
    SetQtySum(c, name, price, delta, LineTotal);
    assert CartTotal(SetQty(c, name, price, delta))
           == before - gone + (if next <= 0 then 0 else LineTotal(CartLine(name, price, next)));
  }

  /** `cartCount` after `setQty`. */
  lemma SetQtyCount(c: Cart, name: string, price: int, delta: int)
    requires DistinctNames(c)
    ensures var next := QtyOf(c, name) + delta;
            CartCount(SetQty(c, name, price, delta))
              == CartCount(c) - NamedSum(c, name, LineQty) + (if next <= 0 then 0 else next)
  {
    var next := QtyOf(c, name) + delta;
    var before, gone := CartCount(c), NamedSum(c, name, LineQty);
    SetQtySum(c, name, price, delta, LineQty);
    assert CartCount(SetQty(c, name, price, delta))
           == before - gone + (if next <= 0 then 0 else LineQty(CartLine(name, price, next)));
  }

  // ---------------------------------------------------------------------
  // handlePay
  // ---------------------------------------------------------------------

  /** Why `handlePay` sends nothing: no stall or no session (a silent
      return), or a PIN that is not four digits once stripped. */
  datatype PayStop = NothingSelected | PinIncomplete

  /** `Object.entries(cart).map(([name, v]) => ({ name, qty, price }))`. */
  function Items(c: Cart): (r: seq<OrderItem>)
    ensures |r| == |c|
    ensures forall i :: 0 <= i < |c| ==> r[i] == OrderItem(c[i].name, c[i].qty, c[i].price)
  {
    if c == [] then [] else [OrderItem(c[0].name, c[0].qty, c[0].price)] + Items(c[1..])
  }

  function ItemsTotal(items: seq<OrderItem>): int {
    if items == [] then 0 else items[0].price * items[0].qty + ItemsTotal(items[1..])
  }

  /** The body sent to POST /api/tokens. */
  function PayRequest(stall: Option<Stall>, signedIn: bool, pin: string, c: Cart): Result<OrderRequest, PayStop> {
    if stall.None? || !signedIn then Err(NothingSelected)
    else
      var pinClean := StripNonDigits(pin);
      if |pinClean| != 4 then Err(PinIncomplete)
      else Ok(OrderRequest(stall.value.stallId, stall.value.name, Some(Items(c)), CartTotal(c), pinClean))
  }

  /** A request is sent only with a four-digit PIN; its lines are the cart's
      lines and its total is the cart total, which is also the total of the
      lines sent. */
  lemma PayRequestContents(stall: Option<Stall>, signedIn: bool, pin: string, c: Cart)
    ensures var r := PayRequest(stall, signedIn, pin, c);
            && (r.Ok? <==> stall.Some? && signedIn && |StripNonDigits(pin)| == 4)
            && (r.Ok? ==> && IsFourDigits(r.value.pin)
                          && r.value.stallId == stall.value.stallId
                          && r.value.items == Some(Items(c))
                          && r.value.total == CartTotal(c) == ItemsTotal(Items(c)))
  {
    ItemsTotalIsCartTotal(c);
  }

  lemma {:induction false} ItemsTotalIsCartTotal(c: Cart)
    ensures ItemsTotal(Items(c)) == CartTotal(c)
  {
    if c != [] {
      ItemsTotalIsCartTotal(c[1..]);
      assert Items(c)[1..] == Items(c[1..]);
    }
  }

  /** A request for a stall with an id and a cart of non-zero total passes
      the server's field check. An empty cart has total 0 and is refused
      there with 400. */
  lemma PayRequestPassesFieldCheck(stall: Option<Stall>, signedIn: bool, pin: string, c: Cart)
    requires PayRequest(stall, signedIn, pin, c).Ok?
    ensures OrderFieldsPresent(PayRequest(stall, signedIn, pin, c).value)
            <==> (stall.value.stallId != "" && CartTotal(c) != 0)
  {
  }
}
