/** The single-page shop's top-level state (frontend/src/App.tsx): which page
    is shown, which product is selected, who is logged in, and the cart, a
    list of product lines keyed by product, colour and size. */
module AppState {
  import opened Values

  datatype Page = Home | Products | ProductDetail | Cart | MyPage | Login | Signup
                | Orders | Admin | AddProduct | CustomerService

  /** The `Product` interface; `rating` is kept as an integer (tenths of a
      star). */
  datatype Product = Product(id: string, name: string, price: int, category: string, brand: string,
                             rating: int, reviewCount: int, description: string, stock: int)

  datatype CartLine = CartLine(product: Product, quantity: int,
                               selectedColor: Option<string>, selectedSize: Option<string>)

  /** Two lines are the same entry when product id, colour and size agree. */
  predicate SameEntry(a: CartLine, b: CartLine) {
    a.product.id == b.product.id && a.selectedColor == b.selectedColor && a.selectedSize == b.selectedSize
  }

  /** `prevCart.findIndex(ci => same entry as item)`. */
  function EntryIndex(cart: seq<CartLine>, item: CartLine): (k: int)
    ensures -1 <= k < |cart|
    ensures k >= 0 ==> SameEntry(cart[k], item) && forall j :: 0 <= j < k ==> !SameEntry(cart[j], item)
    ensures k == -1 ==> forall j :: 0 <= j < |cart| ==> !SameEntry(cart[j], item)
  {
    if cart == [] then -1
    else if SameEntry(cart[0], item) then 0
    else
      var k := EntryIndex(cart[1..], item);
      if k == -1 then -1 else k + 1
  }

  /** The cart after `addToCart(item)`: the first line of the same entry gets
      the added quantity, or the item is appended. */
  function AddedToCart(cart: seq<CartLine>, item: CartLine): (r: seq<CartLine>)
    ensures EntryIndex(cart, item) >= 0 ==> |r| == |cart|
    ensures EntryIndex(cart, item) >= 0 ==> (var k := EntryIndex(cart, item);
      r[k] == cart[k].(quantity := cart[k].quantity + item.quantity) &&
      forall j :: 0 <= j < |cart| && j != k ==> r[j] == cart[j])
    ensures EntryIndex(cart, item) < 0 ==> r == cart + [item]
  {
    var k := EntryIndex(cart, item);
    if k >= 0 then cart[k := cart[k].(quantity := cart[k].quantity + item.quantity)]
    else cart + [item]
  }

  predicate EntriesUnique(cart: seq<CartLine>) {
    forall i, j :: 0 <= i < j < |cart| ==> !SameEntry(cart[i], cart[j])
  }

  /** addToCart never creates a second line for an entry. */
  lemma AddKeepsEntriesUnique(cart: seq<CartLine>, item: CartLine)
    requires EntriesUnique(cart)
    ensures EntriesUnique(AddedToCart(cart, item))
  {
    var r := AddedToCart(cart, item);
    var k := EntryIndex(cart, item);
    if k >= 0 {
      forall i, j | 0 <= i < j < |r|
        ensures !SameEntry(r[i], r[j])
      {
        assert SameEntry(r[i], r[j]) <==> SameEntry(cart[i], cart[j]);
      }
    }
  }

  function TotalQuantity(cart: seq<CartLine>): int {
    if cart == [] then 0 else TotalQuantity(cart[..|cart| - 1]) + cart[|cart| - 1].quantity
  }

  lemma {:induction false} TotalQuantityAppend(a: seq<CartLine>, b: seq<CartLine>)
    ensures TotalQuantity(a + b) == TotalQuantity(a) + TotalQuantity(b)
    decreases |b|
  {
    if b == [] {
      assert a + b == a;
    } else {
      assert (a + b)[..|a + b| - 1] == a + b[..|b| - 1];
      TotalQuantityAppend(a, b[..|b| - 1]);
    }
  }

  lemma {:induction false} TotalQuantityUpdate(cart: seq<CartLine>, k: int, line: CartLine)
    requires 0 <= k < |cart|
    ensures TotalQuantity(cart[k := line]) == TotalQuantity(cart) - cart[k].quantity + line.quantity
  {
    assert cart == cart[..k] + [cart[k]] + cart[k + 1..];
    assert cart[k := line] == cart[..k] + [line] + cart[k + 1..];
    TotalQuantityAppend(cart[..k] + [cart[k]], cart[k + 1..]);
    TotalQuantityAppend(cart[..k], [cart[k]]);
    TotalQuantityAppend(cart[..k] + [line], cart[k + 1..]);
    TotalQuantityAppend(cart[..k], [line]);
    assert TotalQuantity([cart[k]]) == cart[k].quantity by {
      assert [cart[k]][..0] == [];
    }
    assert TotalQuantity([line]) == line.quantity by {
      assert [line][..0] == [];
    }
  }

  /** Whichever branch it takes, addToCart adds the item's quantity to the
      cart's total. */
  lemma AddToCartQuantity(cart: seq<CartLine>, item: CartLine)
    ensures TotalQuantity(AddedToCart(cart, item)) == TotalQuantity(cart) + item.quantity
  {
    var k := EntryIndex(cart, item);
    if k >= 0 {
      TotalQuantityUpdate(cart, k, cart[k].(quantity := cart[k].quantity + item.quantity));
    } else {
      TotalQuantityAppend(cart, [item]);
      assert [item][..0] == [];
    }
  }

  /** The lines whose position is not in `drop`, in order: `filter((_, i) => ...)`. */
  function WithoutIndices(cart: seq<CartLine>, drop: set<int>): (r: seq<CartLine>)
    ensures |r| <= |cart|
  {
    if cart == [] then []
    else WithoutIndices(cart[..|cart| - 1], drop) + (if |cart| - 1 in drop then [] else [cart[|cart| - 1]])
  }

  lemma {:induction false} WithoutNothing(cart: seq<CartLine>, drop: set<int>)
    requires forall i :: i in drop ==> !(0 <= i < |cart|)
    ensures WithoutIndices(cart, drop) == cart
  {
    if cart != [] {
      WithoutNothing(cart[..|cart| - 1], drop);
    }
  }

  /** Position j of a prefix that nothing was dropped from. */
  lemma {:induction false} WithoutKeepsPrefix(cart: seq<CartLine>, drop: set<int>, m: int)
    requires 0 <= m <= |cart|
    requires forall i :: i in drop ==> i >= m
    ensures |WithoutIndices(cart, drop)| >= m
    ensures WithoutIndices(cart, drop)[..m] == cart[..m]
  {
    if |cart| > m {
      var n := |cart| - 1;
      WithoutKeepsPrefix(cart[..n], drop, m);
      assert cart[..n][..m] == cart[..m];
    } else {
      WithoutNothing(cart, drop);
    }
  }

  /** The cart after `removeFromCart(index)`. */
  function RemovedFromCart(cart: seq<CartLine>, index: int): (r: seq<CartLine>)
    ensures 0 <= index < |cart| ==> r == cart[..index] + cart[index + 1..]
    ensures !(0 <= index < |cart|) ==> r == cart
  {
    RemoveAtSlices(cart, index);
    WithoutIndices(cart, {index})
  }

  lemma {:induction false} RemoveAtSlices(cart: seq<CartLine>, index: int)
    ensures 0 <= index < |cart| ==> WithoutIndices(cart, {index}) == cart[..index] + cart[index + 1..]
    ensures !(0 <= index < |cart|) ==> WithoutIndices(cart, {index}) == cart
  {
    if cart != [] {
      var n := |cart| - 1;
      RemoveAtSlices(cart[..n], index);
      if index == n {
        assert cart[..n] + cart[n + 1..] == cart[..n];
      } else if 0 <= index < n {
        assert cart[..n][..index] == cart[..index];
        assert cart[..n][index + 1..] + [cart[n]] == cart[index + 1..];
      } else {
        assert cart[..n] + [cart[n]] == cart;
      }
    }
  }

  /** A position outside the cart drops nothing. */
  lemma {:induction false} DropOutside(cart: seq<CartLine>, drop: set<int>, x: int)
    requires !(0 <= x < |cart|)
    ensures WithoutIndices(cart, drop + {x}) == WithoutIndices(cart, drop)
  {
    if cart != [] {
      DropOutside(cart[..|cart| - 1], drop, x);
    }
  }

  /** Removing, from the lines left after dropping positions all above x,
      the line now at x drops x as well: descending removal is sound. */
  lemma RemoveBelowDropped(cart: seq<CartLine>, drop: set<int>, x: int)
    requires forall i :: i in drop ==> i > x
    ensures RemovedFromCart(WithoutIndices(cart, drop), x) == WithoutIndices(cart, drop + {x})
  {
    if 0 <= x < |cart| {
      ShiftDrop(cart, drop, x);
    } else if x < 0 {
      DropOutside(cart, drop, x);
    } else {
      WithoutNothing(cart, drop);
      DropOutside(cart, drop, x);
    }
  }

  /** Below x nothing is dropped and above it the same positions are, so the
      two results differ by the line at x. */
  lemma {:induction false} ShiftDrop(cart: seq<CartLine>, drop: set<int>, x: int)
    requires 0 <= x < |cart|
    requires forall i :: i in drop ==> i > x
    ensures |WithoutIndices(cart, drop)| > x
    ensures WithoutIndices(cart, drop + {x}) == WithoutIndices(cart, drop)[..x] + WithoutIndices(cart, drop)[x + 1..]
  {
    var n := |cart| - 1;
    WithoutKeepsPrefix(cart, drop, x + 1);
    if n == x {
      ShiftDropLast(cart, drop, x);
    } else {
      ShiftDrop(cart[..n], drop, x);
      ShiftDropStep(cart, drop, x);
    }
  }

  lemma ShiftDropLast(cart: seq<CartLine>, drop: set<int>, x: int)
    requires 0 <= x == |cart| - 1
    requires forall i :: i in drop ==> i > x
    ensures |WithoutIndices(cart, drop)| > x
    ensures WithoutIndices(cart, drop + {x}) == WithoutIndices(cart, drop)[..x] + WithoutIndices(cart, drop)[x + 1..]
  {
    var n := |cart| - 1;
    WithoutNothing(cart[..n], drop + {x});
    WithoutNothing(cart, drop);
    assert WithoutIndices(cart, drop + {x}) == cart[..n];
    assert cart[..x] + cart[x + 1..] == cart[..n];
  }

  /** The step of ShiftDrop past the last line, which stays on both sides. */
  lemma ShiftDropStep(cart: seq<CartLine>, drop: set<int>, x: int)
    requires 0 <= x < |cart| - 1
    requires forall i :: i in drop ==> i > x
    requires |WithoutIndices(cart[..|cart| - 1], drop)| > x
    requires WithoutIndices(cart[..|cart| - 1], drop + {x}) ==
      WithoutIndices(cart[..|cart| - 1], drop)[..x] + WithoutIndices(cart[..|cart| - 1], drop)[x + 1..]
    ensures WithoutIndices(cart, drop + {x}) == WithoutIndices(cart, drop)[..x] + WithoutIndices(cart, drop)[x + 1..]
  {
    var n := |cart| - 1;
    var a := WithoutIndices(cart[..n], drop);
    var t := if n in drop then [] else [cart[n]];
    assert WithoutIndices(cart, drop) == a + t;
    assert WithoutIndices(cart, drop + {x}) == a[..x] + a[x + 1..] + t;
    assert (a + t)[..x] == a[..x];
    assert (a + t)[x + 1..] == a[x + 1..] + t;
  }

  /** `updateCartItem(index, quantity)`: None where `newCart[index]` is
      undefined and the assignment throws a TypeError. */
  function UpdatedCart(cart: seq<CartLine>, index: int, quantity: int): (r: Option<seq<CartLine>>)
    ensures r.Some? <==> 0 <= index < |cart|
    ensures r.Some? ==> |r.value| == |cart| && r.value[index].quantity == quantity
    ensures r.Some? ==> r.value[index].product == cart[index].product && SameEntry(r.value[index], cart[index])
    ensures r.Some? ==> forall j :: 0 <= j < |cart| && j != index ==> r.value[j] == cart[j]
  {
    if 0 <= index < |cart| then Some(cart[index := cart[index].(quantity := quantity)]) else None
  }

  /** The component state the cart and navigation handlers change. */
  class App {
    var currentPage: Page
    var selectedProductId: Option<string>
    var currentUser: Option<string>
    var cart: seq<CartLine>

    constructor()
      ensures currentPage == Home && selectedProductId.None? && currentUser.None? && cart == []
    {
      currentPage := Home;
      selectedProductId := None;
      currentUser := None;
      cart := [];
    }

    /** `navigateTo`: a product id, when given and non-empty, becomes the
        selected product. */
    method NavigateTo(page: Page, productId: Option<string>)
      modifies this
      ensures currentPage == page
      ensures productId.Some? && productId.value != "" ==> selectedProductId == productId
      ensures !(productId.Some? && productId.value != "") ==> selectedProductId == old(selectedProductId)
      ensures cart == old(cart) && currentUser == old(currentUser)
    {
      currentPage := page;
      if productId.Some? && productId.value != "" {
        selectedProductId := productId;
      }
    }

    method AddToCart(item: CartLine)
      modifies this
      ensures cart == AddedToCart(old(cart), item)
      ensures currentPage == old(currentPage) && selectedProductId == old(selectedProductId) && currentUser == old(currentUser)
    {
      var existingIndex := EntryIndex(cart, item);
      if existingIndex >= 0 {
        var newCart := cart;
        newCart := newCart[existingIndex := newCart[existingIndex].(quantity := newCart[existingIndex].quantity + item.quantity)];
        cart := newCart;
        return;
      }
      cart := cart + [item];
    }

    /** Returns whether the update threw; the cart is then unchanged. */
    method UpdateCartItem(index: int, quantity: int) returns (threw: bool)
      modifies this
      ensures threw <==> UpdatedCart(old(cart), index, quantity).None?
      ensures !threw ==> cart == UpdatedCart(old(cart), index, quantity).value
      ensures threw ==> cart == old(cart)
      ensures currentPage == old(currentPage) && selectedProductId == old(selectedProductId) && currentUser == old(currentUser)
    {
      if !(0 <= index < |cart|) {
        return true;
      }
      var newCart := cart;
      newCart := newCart[index := newCart[index].(quantity := quantity)];
      cart := newCart;
      return false;
    }

    method RemoveFromCart(index: int)
      modifies this
      ensures cart == RemovedFromCart(old(cart), index)
      ensures currentPage == old(currentPage) && selectedProductId == old(selectedProductId) && currentUser == old(currentUser)
    {
      cart := RemovedFromCart(cart, index);
    }
  }
}
