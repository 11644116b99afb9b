/** The cart screen of the single-page shop (frontend/src/components/CartPage.tsx):
    a selection of cart positions, the totals over the selected lines with
    the delivery fee, the select-all toggle, quantity edits, checkout of the
    selected lines and the coupon box.  The cart itself is the App state. */
module CartScreen {
  import opened AppState
  import Text
  import Seqs

  const FreeDeliveryFrom: int := 30000
  const DeliveryFee: int := 3000
  const CouponCode: string := "welcome10"

  /** Sum of price times quantity over the lines whose position is selected:
      `cart.filter((_, i) => selected.includes(i)).reduce(...)`. */
  function SelectedSubtotal(cart: seq<CartLine>, selected: seq<int>): int {
    if cart == [] then 0
    else
      var n := |cart| - 1;
      SelectedSubtotal(cart[..n], selected) + (if n in selected then cart[n].product.price * cart[n].quantity else 0)
  }

  /** Sum of price times quantity over the whole cart. */
  function CartValue(cart: seq<CartLine>): int {
    if cart == [] then 0
    else CartValue(cart[..|cart| - 1]) + cart[|cart| - 1].product.price * cart[|cart| - 1].quantity
  }

  datatype Totals = Totals(subtotal: int, deliveryFee: int, total: int)

  /** `totals`: delivery is free from 30000 on and for an empty selection,
      3000 otherwise. */
  function TotalsOf(cart: seq<CartLine>, selected: seq<int>): (t: Totals)
    ensures t.subtotal == SelectedSubtotal(cart, selected)
    ensures t.deliveryFee == 0 <==> t.subtotal >= FreeDeliveryFrom || t.subtotal == 0
    ensures t.deliveryFee == 0 || t.deliveryFee == DeliveryFee
    ensures t.total == t.subtotal + t.deliveryFee
  {
    var subtotal := SelectedSubtotal(cart, selected);
    var fee := if subtotal >= FreeDeliveryFrom || subtotal == 0 then 0 else DeliveryFee;
    Totals(subtotal, fee, subtotal + fee)
  }

  /** `cart.map((_, index) => index)`. */
  function AllIndices(n: nat): (r: seq<int>)
    ensures |r| == n && forall i :: 0 <= i < n ==> r[i] == i
    ensures Seqs.NoDup(r)
  {
    seq(n, i requires 0 <= i < n => i)
  }

  /** Selecting every position sums the whole cart, and selecting none sums
      nothing. */
  lemma {:induction false} SubtotalOfAll(cart: seq<CartLine>, selected: seq<int>)
    requires forall i :: 0 <= i < |cart| ==> i in selected
    ensures SelectedSubtotal(cart, selected) == CartValue(cart)
  {
    if cart != [] {
      SubtotalOfAll(cart[..|cart| - 1], selected);
    }
  }

  lemma {:induction false} SubtotalOfNone(cart: seq<CartLine>)
    ensures SelectedSubtotal(cart, []) == 0
  {
    if cart != [] {
      SubtotalOfNone(cart[..|cart| - 1]);
    }
  }

  /** The selected lines and the lines left without them share the cart's
      value between them. */
  lemma {:induction false} CheckoutSplitsValue(cart: seq<CartLine>, selected: seq<int>)
    ensures CartValue(WithoutIndices(cart, set x | x in selected)) + SelectedSubtotal(cart, selected) == CartValue(cart)
  {
    if cart != [] {
      var n := |cart| - 1;
      var d := set x | x in selected;
      CheckoutSplitsValue(cart[..n], selected);
      var a := WithoutIndices(cart[..n], d);
      assert n in d <==> n in selected;
      if n !in d {
        assert WithoutIndices(cart, d) == a + [cart[n]];
        assert (a + [cart[n]])[..|a|] == a;
      } else {
        assert WithoutIndices(cart, d) == a + [] == a;
      }
      assert CartValue(cart) == CartValue(cart[..n]) + cart[n].product.price * cart[n].quantity;
    }
  }

  /** The selection-sync effect: positions past the end are dropped, and a
      non-empty cart left with nothing selected gets everything selected. */
  function Synced(prev: seq<int>, n: nat): (r: seq<int>)
    ensures forall x :: x in r ==> x < n
    ensures forall x :: x in r ==> x in prev || 0 <= x < n
    ensures forall x :: x in prev && x < n ==> x in r
    ensures n > 0 ==> r != []
    ensures Seqs.NoDup(prev) ==> Seqs.NoDup(r)
  {
    var safe := Seqs.Filter((i: int) => i < n, prev);
    assert Seqs.NoDup(prev) ==> Seqs.NoDup(safe) by {
      if Seqs.NoDup(prev) {
        Seqs.FilterNoDup((i: int) => i < n, prev);
      }
    }
    if |safe| == n then safe
    else if n > 0 && |safe| == 0 then
      assert forall x :: x in prev ==> x >= n;
      AllIndices(n)
    else safe
  }

  /** `toggleAll`: clear when the selection is as long as the cart, select
      every position otherwise. */
  function ToggledAll(selected: seq<int>, n: nat): (r: seq<int>)
    ensures |selected| == n ==> r == []
    ensures |selected| != n ==> r == AllIndices(n)
  {
    if |selected| == n then [] else AllIndices(n)
  }

  /** After select-all the subtotal is the whole cart's value or nothing. */
  lemma ToggleAllSubtotal(cart: seq<CartLine>, selected: seq<int>)
    ensures var t := SelectedSubtotal(cart, ToggledAll(selected, |cart|));
      t == 0 || t == CartValue(cart)
    ensures |selected| != |cart| ==> SelectedSubtotal(cart, ToggledAll(selected, |cart|)) == CartValue(cart)
  {
    if |selected| == |cart| {
      SubtotalOfNone(cart);
    } else {
      var all := AllIndices(|cart|);
      forall i | 0 <= i < |cart|
        ensures i in all
      {
        assert all[i] == i;
      }
      SubtotalOfAll(cart, all);
    }
  }

  /** `applyCoupon`: the trimmed, lower-cased code must be "welcome10". */
  predicate CouponAccepted(code: string) {
    Text.Lower(Text.Strip(code)) == CouponCode
  }

  /** Case and surrounding whitespace make no difference to the coupon. */
  lemma CouponIgnoresCaseAndSpace(code: string, c: char)
    requires Text.IsSpace(c)
    ensures CouponAccepted(Text.Lower(code)) == CouponAccepted(code)
    ensures CouponAccepted([c] + code) == CouponAccepted(code)
  {
    Text.StripLower(code);
    Text.LowerIdempotent(Text.Strip(code));
    Text.StripLeadingSpace(c, code);
  }

  lemma {:induction false} NoDupAtMostOnce(s: seq<int>, x: int)
    requires Seqs.NoDup(s)
    ensures multiset(s)[x] <= 1
  {
    if s != [] {
      assert s == [s[0]] + s[1..];
      assert Seqs.NoDup(s[1..]);
      NoDupAtMostOnce(s[1..], x);
      if s[0] == x {
        assert x !in s[1..];
      }
    }
  }

  /** A rearrangement of a list without repeats has none either. */
  lemma PermutationNoDup(s: seq<int>, t: seq<int>)
    requires Seqs.NoDup(s) && multiset(t) == multiset(s)
    ensures Seqs.NoDup(t)
  {
    forall i, j | 0 <= i < j < |t|
      ensures t[i] != t[j]
    {
      if t[i] == t[j] {
        assert t == t[..i] + [t[i]] + t[i + 1..j] + [t[j]] + t[j + 1..];
        assert multiset(t)[t[i]] >= 2;
        NoDupAtMostOnce(s, t[i]);
      }
    }
  }

  function Negated(i: int): int {
    -i
  }

  /** `[...selectedItems].sort((a, b) => b - a)`. */
  function Descending(selected: seq<int>): (r: seq<int>)
    ensures multiset(r) == multiset(selected)
    ensures forall i, j :: 0 <= i < j < |r| ==> r[i] >= r[j]
  {
    Seqs.SortBy(Negated, selected)
  }

  /** The positions removed after j passes of the checkout loop. */
  function PrefixSet(order: seq<int>, n: int): set<int>
    requires 0 <= n <= |order|
  {
    set x | x in order[..n]
  }

  /** One pass of the checkout loop: with the positions before j of a
      strictly descending list removed, removing position order[j] removes
      one more. */
  lemma RemovalStep(cart: seq<CartLine>, order: seq<int>, j: int)
    requires 0 <= j < |order|
    requires Seqs.NoDup(order) && forall a, b :: 0 <= a < b < |order| ==> order[a] >= order[b]
    ensures RemovedFromCart(WithoutIndices(cart, PrefixSet(order, j)), order[j]) ==
            WithoutIndices(cart, PrefixSet(order, j + 1))
  {
    var done := PrefixSet(order, j);
    forall y | y in done
      ensures y > order[j]
    {
      var a :| 0 <= a < j && order[..j][a] == y;
      assert order[a] == y;
    }
    RemoveBelowDropped(cart, done, order[j]);
    var upTo := order[..j + 1];
    assert upTo == order[..j] + [order[j]];
    assert (set x | x in upTo) == done + {order[j]};
  }

  lemma SameElements(s: seq<int>, t: seq<int>)
    requires multiset(t) == multiset(s)
    ensures PrefixSet(t, |t|) == set x | x in s
  {
    assert t[..|t|] == t;
    forall x | x in s
      ensures x in t
    {
      assert x in multiset(t);
    }
    forall x | x in t
      ensures x in s
    {
      assert x in multiset(s);
    }
  }

  datatype CheckoutOutcome = NothingSelected | LoginRequired | Purchased

  class Screen {
    const app: App
    var selected: seq<int>

    predicate Valid()
      reads this
    {
      Seqs.NoDup(selected)
    }

    constructor(app: App)
      ensures this.app == app && selected == [] && Valid()
    {
      this.app := app;
      selected := [];
    }

    /** Runs after every change of the cart. */
    method SyncSelection()
      requires Valid()
      modifies this
      ensures Valid()
      ensures selected == Synced(old(selected), |app.cart|)
    {
      selected := Synced(selected, |app.cart|);
    }

    /** `toggleItem(index)`. */
    method ToggleItem(index: int)
      requires Valid()
      modifies this
      ensures Valid()
      ensures selected == Seqs.Toggle(old(selected), index)
    {
      Seqs.ToggleNoDup(selected, index);
      selected := Seqs.Toggle(selected, index);
    }

    method ToggleAll()
      requires Valid()
      modifies this
      ensures Valid()
      ensures selected == ToggledAll(old(selected), |app.cart|)
    {
      if |selected| == |app.cart| {
        selected := [];
      } else {
        selected := AllIndices(|app.cart|);
      }
    }

    /** `handleQuantity(index, next)`: a quantity below 1 is ignored. */
    method HandleQuantity(index: int, next: int)
      modifies app
      ensures next < 1 ==> app.cart == old(app.cart)
      ensures next >= 1 ==> app.cart == UpdatedCart(old(app.cart), index, next).GetOr(old(app.cart))
    {
      if next < 1 {
        return;
      }
      var _ := app.UpdateCartItem(index, next);
    }

    /** `handleCheckout`: removes the selected positions, highest first, so
        that every removal still finds its line where it was. */
    method Checkout() returns (outcome: CheckoutOutcome)
      requires Valid()
      modifies app
      ensures outcome == NothingSelected <==> selected == []
      ensures outcome == LoginRequired <==> selected != [] && app.currentUser.None?
      ensures outcome != Purchased ==> app.cart == old(app.cart)
      ensures outcome == Purchased ==> app.cart == WithoutIndices(old(app.cart), set x | x in selected)
      ensures app.currentUser == old(app.currentUser)
    {
      if |selected| == 0 {
        return NothingSelected;
      }
      if app.currentUser.None? {
        return LoginRequired;
      }
      var order := Descending(selected);
      PermutationNoDup(selected, order);
      ghost var cart0 := app.cart;
      WithoutNothing(cart0, PrefixSet(order, 0));
      var j := 0;
      while j < |order|
        invariant 0 <= j <= |order|
        invariant app.cart == WithoutIndices(cart0, PrefixSet(order, j))
        invariant app.currentUser == old(app.currentUser)
      {
        RemovalStep(cart0, order, j);
        app.RemoveFromCart(order[j]);
        j := j + 1;
      }
      SameElements(selected, order);
      return Purchased;
    }
  }
}
