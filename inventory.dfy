/** The stock-level badge, the row actions and the summary counts of the
    Inventory page, over the `qty_available` of each inventory row. */
module Inventory {

  /** `getStockLevelText`. */
  function StockLevelText(qty: int): string {
    if qty == 0 then "Out of Stock"
    else if qty < 10 then "Low Stock"
    else if qty < 25 then "Medium Stock"
    else "In Stock"
  }

  /** `getStockLevelColor`. */
  function StockLevelColor(qty: int): string {
    if qty == 0 then "var(--error)"
    else if qty < 10 then "var(--warning)"
    else if qty < 25 then "var(--info)"
    else "var(--success)"
  }

  /** The colour each badge text is drawn in. */
  function ColorOfText(text: string): string {
    if text == "Out of Stock" then "var(--error)"
    else if text == "Low Stock" then "var(--warning)"
    else if text == "Medium Stock" then "var(--info)"
    else "var(--success)"
  }

  /** The four bands: out of stock is exactly zero, low is any other quantity
      below 10 (so a negative quantity is low, not out), medium is 10 to 24,
      and in stock is 25 or more. */
  lemma StockLevelBands(qty: int)
    ensures StockLevelText(qty) == "Out of Stock" <==> qty == 0
    ensures StockLevelText(qty) == "Low Stock" <==> qty != 0 && qty < 10
    ensures StockLevelText(qty) == "Medium Stock" <==> 10 <= qty < 25
    ensures StockLevelText(qty) == "In Stock" <==> qty >= 25
  {
  }

  /** A negative quantity is shown as low stock. */
  lemma NegativeIsLowStock(qty: int)
    requires qty < 0
    ensures StockLevelText(qty) == "Low Stock"
    ensures StockLevelColor(qty) == "var(--warning)"
  {
  }

  /** The badge colour follows the badge text, and different texts get different colours. */
  lemma ColorMatchesText(qty: int, other: int)
    ensures StockLevelColor(qty) == ColorOfText(StockLevelText(qty))
    ensures StockLevelColor(qty) == StockLevelColor(other) <==> StockLevelText(qty) == StockLevelText(other)
  {
  }

  /** The Issue Stock and Mark as Scrap buttons: `disabled={row.qty_available === 0}`. */
  predicate IssueDisabled(qty: int) {
    qty == 0
  }

  /** The Add Stock button carries no `disabled` property. */
  predicate AddDisabled(qty: int) {
    false
  }

  /** The actions that take stock out are disabled exactly on the rows badged
      "Out of Stock"; a negative quantity leaves them enabled. */
  lemma DisabledIffOutOfStock(qty: int)
    ensures IssueDisabled(qty) <==> StockLevelText(qty) == "Out of Stock"
    ensures !AddDisabled(qty)
  {
  }

  /** `inventory.filter(item => item.qty_available < 10).length`. */
  function LowStockCount(qtys: seq<int>): nat {
    if qtys == [] then 0
    else LowStockCount(qtys[..|qtys| - 1]) + (if qtys[|qtys| - 1] < 10 then 1 else 0)
  }

  /** `inventory.filter(item => item.qty_available === 0).length`. */
  function OutOfStockCount(qtys: seq<int>): nat {
    if qtys == [] then 0
    else OutOfStockCount(qtys[..|qtys| - 1]) + (if qtys[|qtys| - 1] == 0 then 1 else 0)
  }

  datatype Stats = Stats(totalItems: nat, lowStockItems: nat, outOfStockItems: nat)

  /** The integer counts of `getStats`. */
  function GetStats(qtys: seq<int>): Stats {
    Stats(|qtys|, LowStockCount(qtys), OutOfStockCount(qtys))
  }

  /** Every out-of-stock row is also counted as low stock, so
      out-of-stock <= low stock <= total. */
  lemma {:induction false} CountsOrdered(qtys: seq<int>)
    ensures OutOfStockCount(qtys) <= LowStockCount(qtys) <= |qtys|
  {
    if qtys != [] {
      CountsOrdered(qtys[..|qtys| - 1]);
    }
  }

  /** The counts of `getStats` are ordered. */
  lemma StatsOrdered(qtys: seq<int>)
    ensures var s := GetStats(qtys);
      s.outOfStockItems <= s.lowStockItems <= s.totalItems
  {
    CountsOrdered(qtys);
  }

  /** The low-stock count is the number of rows not badged "Medium Stock" or
      "In Stock", and the out-of-stock count the number badged "Out of Stock". */
  lemma {:induction false} CountsMatchBadges(qtys: seq<int>)
    ensures LowStockCount(qtys) == |qtys| - BadgeCount(qtys, "Medium Stock") - BadgeCount(qtys, "In Stock")
    ensures OutOfStockCount(qtys) == BadgeCount(qtys, "Out of Stock")
  {
    if qtys != [] {
      CountsMatchBadges(qtys[..|qtys| - 1]);
      StockLevelBands(qtys[|qtys| - 1]);
    }
  }

  /** The number of rows shown with the given badge text. */
  function BadgeCount(qtys: seq<int>, text: string): nat {
    if qtys == [] then 0
    else BadgeCount(qtys[..|qtys| - 1], text) + (if StockLevelText(qtys[|qtys| - 1]) == text then 1 else 0)
  }
}
