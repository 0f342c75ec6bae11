/**
 * Line items and invoice totals (invoice_generator.py:236-267, 353-360).
 *
 * Amounts are exact reals: the program's float arithmetic and its `:.2f`
 * display rounding are not modelled. This version of the program has no tax.
 */
module Totals {
  import Text

  /** What the form collects for one item: name, price per unit, quantity and discount %. */
  datatype Entry = Entry(name: string, price: real, qty: int, discountPercent: real)

  /** The bounds the form's number inputs enforce: price >= 0, quantity >= 1, 0 <= discount <= 100. */
  predicate ValidEntry(e: Entry)
  {
    e.price >= 0.0 && e.qty >= 1 && 0.0 <= e.discountPercent <= 100.0
  }

  /** The dictionary the form builds for one item. */
  datatype Item = Item(
    sNo: string,
    name: string,
    price: real,
    qty: int,
    discountPercent: real,
    total: real,
    finalTotal: real)

  /** An item whose discounted total lies between zero and its undiscounted total. */
  predicate Bounded(it: Item)
  {
    0.0 <= it.finalTotal <= it.total
  }

  /** The item at 0-based position i: `total = price*qty`, `final = total*(1 - d/100)`. */
  function MakeItem(i: nat, e: Entry): (it: Item)
    ensures it.sNo == Text.Decimal(i + 1) && it.name == e.name
    ensures it.price == e.price && it.qty == e.qty && it.discountPercent == e.discountPercent
    ensures it.total == e.price * (e.qty as real)
    ensures it.total - it.finalTotal == it.total * e.discountPercent / 100.0
    ensures e.discountPercent == 0.0 ==> it.finalTotal == it.total
    ensures e.discountPercent == 100.0 ==> it.finalTotal == 0.0
    ensures ValidEntry(e) ==> it.total >= 0.0 && Bounded(it)
  {
    var total := e.price * (e.qty as real);
    var final := total * (1.0 - e.discountPercent / 100.0);
    assert ValidEntry(e) ==> total >= 0.0 && 0.0 <= 1.0 - e.discountPercent / 100.0 <= 1.0;
    assert ValidEntry(e) ==> final <= total by {
      if ValidEntry(e) {
        assert total - final == total * (e.discountPercent / 100.0);
        assert total * (e.discountPercent / 100.0) >= 0.0;
      }
    }
    Item(Text.Decimal(i + 1), e.name, e.price, e.qty, e.discountPercent, total, final)
  }

  /** The form's item loop: one item per entry, numbered from 1, in entry order. */
  method CollectItems(entries: seq<Entry>) returns (items: seq<Item>)
    ensures |items| == |entries|
    ensures forall i :: 0 <= i < |entries| ==> items[i] == MakeItem(i, entries[i])
  {
    items := [];
    for i := 0 to |entries|
      invariant |items| == i
      invariant forall k :: 0 <= k < i ==> items[k] == MakeItem(k, entries[k])
    {
      items := items + [MakeItem(i, entries[i])];
    }
  }

  /** Items collected from valid entries carry distinct serial numbers and bounded totals. */
  lemma CollectedItemsWellFormed(entries: seq<Entry>, items: seq<Item>)
    requires |items| == |entries|
    requires forall i :: 0 <= i < |entries| ==> items[i] == MakeItem(i, entries[i])
    requires forall i :: 0 <= i < |entries| ==> ValidEntry(entries[i])
    ensures forall i :: 0 <= i < |items| ==> Bounded(items[i])
    ensures forall i, j :: 0 <= i < j < |items| ==> items[i].sNo != items[j].sNo
  {
  }

  /** `sum(it["total"] for it in items)`. */
  function SumTotal(items: seq<Item>): real
  {
    if items == [] then 0.0 else items[0].total + SumTotal(items[1..])
  }

  /** `sum(it["final_total"] for it in items)`: the on-screen subtotal and the grand total. */
  function SumFinal(items: seq<Item>): real
  {
    if items == [] then 0.0 else items[0].finalTotal + SumFinal(items[1..])
  }

  /** `sum(it["total"] - it["final_total"] for it in items)`. */
  function SumDiscount(items: seq<Item>): real
  {
    if items == [] then 0.0 else (items[0].total - items[0].finalTotal) + SumDiscount(items[1..])
  }

  /** The discounts add up to the difference between the undiscounted and discounted sums. */
  lemma {:induction false} DiscountIsDifference(items: seq<Item>)
    ensures SumDiscount(items) == SumTotal(items) - SumFinal(items)
  {
    if items != [] {
      DiscountIsDifference(items[1..]);
    }
  }

  /** Over bounded items, every sum is non-negative and the discount never exceeds the total. */
  lemma {:induction false} SumsBounded(items: seq<Item>)
    requires forall i :: 0 <= i < |items| ==> Bounded(items[i])
    ensures 0.0 <= SumFinal(items) <= SumTotal(items)
    ensures 0.0 <= SumDiscount(items) <= SumTotal(items)
  {
    if items != [] {
      SumsBounded(items[1..]);
    }
    DiscountIsDifference(items);
  }

  /** The totals block of the invoice. */
  datatype InvoiceTotals = InvoiceTotals(totalAmount: real, discountAmt: real, grandTotal: real)

  /** The totals computed when an invoice is generated (no tax in this version). */
  function ComputeTotals(items: seq<Item>): (t: InvoiceTotals)
    ensures t.totalAmount == t.discountAmt + t.grandTotal
    ensures t.totalAmount == SumTotal(items)
    ensures t.discountAmt == SumDiscount(items)
    ensures t.grandTotal == SumFinal(items)
    ensures (forall i :: 0 <= i < |items| ==> Bounded(items[i])) ==>
              0.0 <= t.grandTotal && 0.0 <= t.discountAmt <= t.totalAmount
  {
    DiscountIsDifference(items);
    var t := InvoiceTotals(SumTotal(items), SumDiscount(items), SumFinal(items));
    if forall i :: 0 <= i < |items| ==> Bounded(items[i]) then
      SumsBounded(items);
      t
    else t
  }

  /**
   * Two items, 100 x 2 at 10% and 50 x 1 at 0%: final totals 180 and 50,
   * subtotal and grand total 230, discount 20.
   */
  lemma TwoItemInvoice()
    ensures var items := [MakeItem(0, Entry("a", 100.0, 2, 10.0)), MakeItem(1, Entry("b", 50.0, 1, 0.0))];
            && items[0].finalTotal == 180.0 && items[1].finalTotal == 50.0
            && ComputeTotals(items) == InvoiceTotals(250.0, 20.0, 230.0)
  {
  }
}
