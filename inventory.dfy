/**
 * The hospital inventory: the drug catalogue with an identifier, a drawn stock
 * level and a fixed reorder level added to every row, and one drug forced into
 * a stock-out.
 */
module Inventory {
  import opened Wrappers
  import opened Text

  const FIRST_DRUG_ID := 5001
  const MIN_STOCK := 10
  const MAX_STOCK := 500
  const REORDER_LEVEL := 50
  /** Rows whose name contains this keyword get the stock-out level. */
  const STOCK_OUT_KEYWORD := "Amoxicillin"
  const STOCK_OUT_LEVEL := 8

  /** One catalogue row; the unit price is in cents, the name may be missing. */
  datatype Drug = Drug(name: Option<string>, unitPrice: int)

  datatype InventoryItem = InventoryItem(drug: Drug, drugId: int, currentStock: int, reorderLevel: int)

  /** `Drug_Name.str.contains(keyword, case=False, na=False)`: a missing name never matches. */
  predicate NameContains(name: Option<string>, keyword: string)
  {
    name.Some? && ContainsIgnoreCase(name.value, keyword)
  }

  /** Each stock draw is `random.randint(MIN_STOCK, MAX_STOCK)`. */
  predicate ValidStockDraws(drugs: seq<Drug>, stockDraws: seq<int>)
  {
    |stockDraws| == |drugs| &&
    forall i :: 0 <= i < |stockDraws| ==> MIN_STOCK <= stockDraws[i] <= MAX_STOCK
  }

  /** Identifiers run 5001, 5002, ... in table order. */
  ghost predicate SequentialIds(inventory: seq<InventoryItem>)
  {
    forall i :: 0 <= i < |inventory| ==> inventory[i].drugId == FIRST_DRUG_ID + i
  }

  /**
   * Builds the inventory column by column: identifiers from 5001, the drawn
   * stock levels in a `Current_Stock` column that is then overwritten in
   * place for every row naming the stock-out drug, and the fixed reorder level.
   */
  method Synthesize(drugs: seq<Drug>, stockDraws: seq<int>) returns (inventory: seq<InventoryItem>)
    requires ValidStockDraws(drugs, stockDraws)
    ensures |inventory| == |drugs|
    ensures SequentialIds(inventory)
    ensures forall i :: 0 <= i < |inventory| ==>
      inventory[i].drug == drugs[i] && inventory[i].reorderLevel == REORDER_LEVEL
    ensures forall i :: 0 <= i < |inventory| ==>
      inventory[i].currentStock ==
        if NameContains(drugs[i].name, STOCK_OUT_KEYWORD) then STOCK_OUT_LEVEL else stockDraws[i]
    ensures forall i :: 0 <= i < |inventory| && NameContains(drugs[i].name, STOCK_OUT_KEYWORD) ==>
      inventory[i].currentStock < inventory[i].reorderLevel
    ensures forall i :: 0 <= i < |inventory| && !NameContains(drugs[i].name, STOCK_OUT_KEYWORD) ==>
      MIN_STOCK <= inventory[i].currentStock <= MAX_STOCK
  {
    var n := |drugs|;
    var stock := new int[n];
    var i := 0;
    while i < n
      invariant 0 <= i <= n
      invariant forall k :: 0 <= k < i ==> stock[k] == stockDraws[k]
    {
      stock[i] := stockDraws[i];
      i := i + 1;
    }
    var stockOut := StockOutMask(drugs);
    forall k | 0 <= k < n {
      NameContainsIff(drugs[k].name, STOCK_OUT_KEYWORD);
    }
    MarkStockOut(stockOut, stock);
    inventory := [];
    i := 0;
    while i < n
      invariant 0 <= i <= n && |inventory| == i
      invariant forall k :: 0 <= k < i ==>
        inventory[k] == InventoryItem(drugs[k], FIRST_DRUG_ID + k, stock[k], REORDER_LEVEL)
    {
      inventory := inventory + [InventoryItem(drugs[i], FIRST_DRUG_ID + i, stock[i], REORDER_LEVEL)];
      i := i + 1;
    }
  }

  /**
   * A name mentions `keyword` when it is present and the lower-cased keyword
   * occurs at some position of the lower-cased name.
   */
  ghost predicate Mentions(name: Option<string>, keyword: string)
  {
    name.Some? && exists i :: OccursAt(Lower(name.value), Lower(keyword), i)
  }

  /** The case-insensitive scan with missing names excluded is exactly `Mentions`. */
  lemma NameContainsIff(name: Option<string>, keyword: string)
    ensures NameContains(name, keyword) <==> Mentions(name, keyword)
  {
    if name.Some? {
      ContainsIgnoreCaseIsLowerContains(name.value, keyword);
      ContainsIff(Lower(name.value), Lower(keyword));
    }
  }

  /**
   * A keyword matches anywhere inside a name, also inside a word: the
   * keyword "AL" matches the drug name "Salbutamol 4mg".
   */
  lemma KeywordMatchesInsideWord()
    ensures NameContains(Some("Salbutamol 4mg"), "AL")
  {
    var name := "Salbutamol 4mg";
    assert StartsWithIgnoreCase(name[1..], "AL");
  }

  /** `df_inventory['Drug_Name'].str.contains('Amoxicillin', case=False, na=False)`, row by row. */
  function StockOutMask(drugs: seq<Drug>): (mask: seq<bool>)
    ensures |mask| == |drugs|
    ensures forall k :: 0 <= k < |drugs| ==> (mask[k] <==> Mentions(drugs[k].name, STOCK_OUT_KEYWORD))
  {
    var mask := seq(|drugs|, k requires 0 <= k < |drugs| => NameContains(drugs[k].name, STOCK_OUT_KEYWORD));
    assert forall k :: 0 <= k < |drugs| ==> (mask[k] <==> Mentions(drugs[k].name, STOCK_OUT_KEYWORD)) by {
      forall k | 0 <= k < |drugs| {
        NameContainsIff(drugs[k].name, STOCK_OUT_KEYWORD);
      }
    }
    mask
  }

  /**
   * `df_inventory.loc[mask, 'Current_Stock'] = 8`: overwrites, in place, the
   * stock of every row the mask selects; every other row keeps its stock.
   */
  method MarkStockOut(mask: seq<bool>, stock: array<int>)
    requires stock.Length == |mask|
    modifies stock
    ensures forall k :: 0 <= k < stock.Length ==> stock[k] == if mask[k] then STOCK_OUT_LEVEL else old(stock[k])
  {
    var i := 0;
    while i < stock.Length
      invariant 0 <= i <= stock.Length
      invariant forall k :: 0 <= k < stock.Length ==>
        stock[k] == if k < i && mask[k] then STOCK_OUT_LEVEL else old(stock[k])
    {
      if mask[i] {
        stock[i] := STOCK_OUT_LEVEL;
      }
      i := i + 1;
    }
  }

  /** The row with identifier `id`, scanning the table in order. */
  function Lookup(inventory: seq<InventoryItem>, id: int): (r: Option<InventoryItem>)
    ensures r.Some? ==> r.value in inventory && r.value.drugId == id
    ensures r.None? ==> forall k :: 0 <= k < |inventory| ==> inventory[k].drugId != id
  {
    if inventory == [] then None
    else if inventory[0].drugId == id then Some(inventory[0])
    else Lookup(inventory[1..], id)
  }

  /** With sequential identifiers, each identifier names exactly its own row. */
  lemma {:induction false} LookupSequential(inventory: seq<InventoryItem>, k: nat)
    requires SequentialIds(inventory) && k < |inventory|
    ensures Lookup(inventory, inventory[k].drugId) == Some(inventory[k])
  {
    var id := inventory[k].drugId;
    var r := Lookup(inventory, id);
    assert r.Some?;
    var j :| 0 <= j < |inventory| && inventory[j] == r.value;
    assert inventory[j].drugId == FIRST_DRUG_ID + j;
  }
}
