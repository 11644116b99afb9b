/** The inventory table of the admin screen (frontend/src/components/AdminPage.tsx):
    a fixed list of stock items narrowed by category, status and a name
    search. */
module AdminInventory {
  import Text
  import Seqs

  const OnSale: string := "판매중"
  const SoldOut: string := "품절"
  const Hidden: string := "숨김"

  datatype InventoryItem = InventoryItem(id: string, name: string, category: string,
                                         price: int, stock: int, status: string)

  /** The table's rows. */
  const Inventory: seq<InventoryItem> := [
    InventoryItem("SKU-001", "여름 린넨 반팔 셔츠", "패션의류", 29900, 150, OnSale),
    InventoryItem("SKU-002", "데일리 클래식 스니커즈", "패션의류", 49900, 85, OnSale),
    InventoryItem("SKU-003", "민감성 보습 크림", "뷰티", 24900, 0, SoldOut),
    InventoryItem("SKU-004", "프리미엄 요가 매트", "스포츠/레저", 39900, 210, OnSale)]

  datatype InventoryFilter = InventoryFilter(query: string, category: string, status: string)

  /** The predicate of `filteredInventory`. */
  predicate Shows(f: InventoryFilter, item: InventoryItem) {
    && (f.category == "all" || item.category == f.category)
    && (f.status == "all" || item.status == f.status)
    && (Text.Strip(f.query) == "" || Text.Contains(Text.Lower(item.name), Text.Lower(Text.Strip(f.query))))
  }

  /** `filteredInventory`, over any list of rows. */
  function Filtered(f: InventoryFilter, items: seq<InventoryItem>): (r: seq<InventoryItem>)
    ensures Seqs.IsSubsequence(r, items)
    ensures forall x :: x in r <==> x in items && Shows(f, x)
  {
    Seqs.Filter((x: InventoryItem) => Shows(f, x), items)
  }

  predicate Neutral(f: InventoryFilter) {
    f.category == "all" && f.status == "all" && Text.Strip(f.query) == ""
  }

  /** With every filter at its initial setting the whole table is shown. */
  lemma NeutralShowsAll(f: InventoryFilter, items: seq<InventoryItem>)
    requires Neutral(f)
    ensures Filtered(f, items) == items
  {
    Seqs.FilterAll((x: InventoryItem) => Shows(f, x), items);
  }

  /** The status filter on its own picks exactly the rows of that status. */
  lemma StatusOnly(f: InventoryFilter, items: seq<InventoryItem>, x: InventoryItem)
    requires f.category == "all" && Text.Strip(f.query) == "" && f.status != "all"
    ensures x in Filtered(f, items) <==> x in items && x.status == f.status
  {
  }

  /** The sold-out filter shows the single sold-out row. */
  lemma SoldOutRows()
    ensures Filtered(InventoryFilter("", "all", SoldOut), Inventory) == [Inventory[2]]
  {
    var f := InventoryFilter("", "all", SoldOut);
    var rows := Inventory;
    assert Inventory[0].status != SoldOut && Inventory[1].status != SoldOut && Inventory[3].status != SoldOut;
    assert Filtered(f, rows[3..]) == [] by {
      assert Filtered(f, rows[4..]) == [];
    }
    assert Filtered(f, rows[2..]) == [rows[2]] by {
      assert Text.Strip("") == "";
      assert rows[2..][1..] == rows[3..];
    }
    assert Filtered(f, rows[1..]) == [rows[2]] by {
      assert rows[1..][1..] == rows[2..];
    }
    assert rows[1..] == rows[0..][1..];
  }
}
