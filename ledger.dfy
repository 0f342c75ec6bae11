/**
 * The invoice ledger: the rows written for an invoice (invoice_generator.py:378-399),
 * the location column added on append (160-201), and the cancel / restore
 * handlers that rewrite the Status cell of every row of one invoice (405-440).
 *
 * The spreadsheet is held in memory as a grid of cells; `grid[r]` is sheet row
 * r + 1, so the header is sheet row 1. Rows may be shorter than the header: a
 * missing trailing cell reads as an empty string, as the record reader fills it.
 */
module Ledger {
  import opened Common
  import Totals
  import Users

  /** A spreadsheet value: text, a whole number or a decimal amount. */
  datatype Cell = Str(s: string) | Int(n: int) | Num(x: real)

  /** The header the append inserts into an empty sheet, in column order. */
  const HeaderNames: seq<string> := [
    "Stall No", "Invoice No", "Date", "Phone No", "Payment Method", "Artisan Code",
    "Item", "Qty", "Price", "Total (Item)", "Discount%", "Final Total (Item)",
    "Final Total (Invoice)", "Status", "Location"]

  function HeaderRow(): (h: seq<Cell>)
    ensures |h| == |HeaderNames|
    ensures forall k :: 0 <= k < |h| ==> h[k] == Str(HeaderNames[k])
  {
    seq(|HeaderNames|, k requires 0 <= k < |HeaderNames| => Str(HeaderNames[k]))
  }

  /** The column each header name stands at: the layout every ledger row follows. */
  lemma HeaderNamesAt()
    ensures |HeaderNames| == 15
    ensures && HeaderNames[0] == "Stall No" && HeaderNames[1] == "Invoice No"
            && HeaderNames[2] == "Date" && HeaderNames[3] == "Phone No"
            && HeaderNames[4] == "Payment Method" && HeaderNames[5] == "Artisan Code"
            && HeaderNames[6] == "Item" && HeaderNames[7] == "Qty"
            && HeaderNames[8] == "Price" && HeaderNames[9] == "Total (Item)"
            && HeaderNames[10] == "Discount%" && HeaderNames[11] == "Final Total (Item)"
            && HeaderNames[12] == "Final Total (Invoice)" && HeaderNames[13] == "Status"
            && HeaderNames[14] == "Location"
  {
  }

  /** The width of a row as the invoice form builds it: every column but Location. */
  const RowWidth: nat := 14

  /** The invoice-level fields each row repeats. */
  datatype InvoiceHead = InvoiceHead(
    stallNo: string,
    invoiceNo: string,
    date: string,
    phone: string,
    paymentMethod: string,
    artisanCode: string)

  /** The status a freshly written invoice row carries. */
  const Active: string := "Active"
  const Cancelled: string := "Cancelled"

  /** The row written for one item: invoice fields, item fields, the invoice total and "Active". */
  function ItemRow(h: InvoiceHead, it: Totals.Item, grandTotal: real): seq<Cell>
  {
    [Str(h.stallNo), Str(h.invoiceNo), Str(h.date), Str(h.phone), Str(h.paymentMethod),
     Str(h.artisanCode), Str(it.name), Int(it.qty), Num(it.price), Num(it.total),
     Num(it.discountPercent), Num(it.finalTotal), Num(grandTotal), Str(Active)]
  }

  /** The columns that belong to the invoice rather than to one item. */
  predicate InvoiceLevel(k: nat)
  {
    k < 6 || k == 12 || k == 13
  }

  /**
   * The rows list comprehension: one row per item, in item order, each laid out
   * under the header's first fourteen names (`HeaderNamesAt` lists them).
   */
  function BuildRows(h: InvoiceHead, items: seq<Totals.Item>, grandTotal: real): (rows: seq<seq<Cell>>)
    ensures |rows| == |items|
    ensures forall i :: 0 <= i < |rows| ==> |rows[i]| == RowWidth == |HeaderNames| - 1
    ensures forall i :: 0 <= i < |rows| ==>
              && rows[i][0] == Str(h.stallNo)
              && rows[i][1] == Str(h.invoiceNo)
              && rows[i][2] == Str(h.date)
              && rows[i][3] == Str(h.phone)
              && rows[i][4] == Str(h.paymentMethod)
              && rows[i][5] == Str(h.artisanCode)
              && rows[i][12] == Num(grandTotal)
              && rows[i][13] == Str(Active)
    ensures forall i :: 0 <= i < |rows| ==>
              && rows[i][6] == Str(items[i].name)
              && rows[i][7] == Int(items[i].qty)
              && rows[i][8] == Num(items[i].price)
              && rows[i][9] == Num(items[i].total)
              && rows[i][10] == Num(items[i].discountPercent)
              && rows[i][11] == Num(items[i].finalTotal)
  {
    seq(|items|, i requires 0 <= i < |items| => ItemRow(h, items[i], grandTotal))
  }

  /** Any two rows of one invoice agree on every invoice-level column. */
  lemma RowsShareInvoiceFields(h: InvoiceHead, items: seq<Totals.Item>, grandTotal: real, i: nat, j: nat, k: nat)
    requires i < |items| && j < |items| && k < RowWidth && InvoiceLevel(k)
    ensures BuildRows(h, items, grandTotal)[i][k] == BuildRows(h, items, grandTotal)[j][k]
  {
  }

  /** Two rows of one invoice are equal exactly when their items carry the same fields. */
  lemma RowsDifferOnlyByItem(h: InvoiceHead, items: seq<Totals.Item>, grandTotal: real, i: nat, j: nat)
    requires i < |items| && j < |items|
    ensures BuildRows(h, items, grandTotal)[i] == BuildRows(h, items, grandTotal)[j] <==>
              && items[i].name == items[j].name && items[i].qty == items[j].qty
              && items[i].price == items[j].price && items[i].total == items[j].total
              && items[i].discountPercent == items[j].discountPercent
              && items[i].finalTotal == items[j].finalTotal
  {
  }

  /**
   * The padding loop of the append: a row one short of the header gets the
   * location as its last field; every other row is passed on as it is.
   */
  method PadLocation(rows: seq<seq<Cell>>, location: string) returns (padded: seq<seq<Cell>>)
    ensures |padded| == |rows|
    ensures forall i :: 0 <= i < |rows| && |rows[i]| == RowWidth ==> padded[i] == rows[i] + [Str(location)]
    ensures forall i :: 0 <= i < |rows| && |rows[i]| != RowWidth ==> padded[i] == rows[i]
  {
    padded := [];
    for i := 0 to |rows|
      invariant |padded| == i
      invariant forall k :: 0 <= k < i && |rows[k]| == RowWidth ==> padded[k] == rows[k] + [Str(location)]
      invariant forall k :: 0 <= k < i && |rows[k]| != RowWidth ==> padded[k] == rows[k]
    {
      if |rows[i]| == |HeaderNames| - 1 {
        padded := padded + [rows[i] + [Str(location)]];
      } else {
        padded := padded + [rows[i]];
      }
    }
  }

  /** Padding rows built for an invoice yields full-width rows ending with the location. */
  lemma BuiltRowsGetLocation(
    h: InvoiceHead, items: seq<Totals.Item>, grandTotal: real, location: string, padded: seq<seq<Cell>>)
    requires var rows := BuildRows(h, items, grandTotal);
      && |padded| == |rows|
      && forall i :: 0 <= i < |rows| && |rows[i]| == RowWidth ==> padded[i] == rows[i] + [Str(location)]
    ensures forall i :: 0 <= i < |padded| ==>
              && |padded[i]| == |HeaderNames|
              && padded[i][..RowWidth] == BuildRows(h, items, grandTotal)[i]
              && padded[i][14] == Str(location)
  {
  }

  /** `worksheet.row_values(1)` is empty: the sheet has no row 1 or only blank cells in it. */
  predicate FirstRowBlank(g: seq<seq<Cell>>)
  {
    g == [] || forall k :: 0 <= k < |g[0]| ==> g[0][k] == Str("")
  }

  /** The value the record reader gives column k of a row; missing trailing cells read as "". */
  function At(row: seq<Cell>, k: nat): Cell
  {
    if k < |row| then row[k] else Str("")
  }

  /** `n` empty cells. */
  function Blanks(n: nat): (b: seq<Cell>)
    ensures |b| == n && forall k :: 0 <= k < n ==> b[k] == Str("")
  {
    seq(n, _ => Str(""))
  }

  /** The row after its 0-based column j is set to v (the row grows with blanks if needed). */
  function Put(row: seq<Cell>, j: nat, v: Cell): (r: seq<Cell>)
    ensures |r| == if j < |row| then |row| else j + 1
    ensures forall k: nat :: At(r, k) == if k == j then v else At(row, k)
  {
    if j < |row| then row[j := v] else row + Blanks(j - |row|) + [v]
  }

  /** Setting a cell to the value it was just set to changes nothing. */
  lemma PutTwice(row: seq<Cell>, j: nat, v: Cell)
    ensures Put(Put(row, j, v), j, v) == Put(row, j, v)
  {
  }

  /** The columns of the frame built from the records: none when there are no data rows. */
  function Columns(g: seq<seq<Cell>>): seq<Cell>
  {
    if |g| <= 1 then [] else g[0]
  }

  /** `df.columns.get_loc(name)`: the first column carrying that name. */
  function ColumnIndex(header: seq<Cell>, name: string): (r: Option<nat>)
    ensures r.Some? ==> r.value < |header| && header[r.value] == Str(name)
    ensures r.Some? ==> forall k :: 0 <= k < r.value ==> header[k] != Str(name)
    ensures r.None? ==> forall k :: 0 <= k < |header| ==> header[k] != Str(name)
  {
    if header == [] then None
    else if header[0] == Str(name) then Some(0)
    else match ColumnIndex(header[1..], name)
      case None => None
      case Some(k) => Some(k + 1)
  }

  /** A data row belongs to the selected invoice (`df_all["Invoice No"] == selected_invoice`). */
  predicate Matches(row: seq<Cell>, invCol: nat, selected: string)
  {
    At(row, invCol) == Str(selected)
  }

  /** How many of the rows belong to the selected invoice. */
  function MatchCount(rows: seq<seq<Cell>>, invCol: nat, selected: string): (n: nat)
    ensures n <= |rows|
  {
    if rows == [] then 0
    else MatchCount(rows[..|rows| - 1], invCol, selected) + (if Matches(rows[|rows| - 1], invCol, selected) then 1 else 0)
  }

  /** The grid after the data rows up to grid row n of the selected invoice have their status cell set. */
  function MarkedThrough(g: seq<seq<Cell>>, invCol: nat, statusCol: nat, selected: string, status: string, n: nat): (m: seq<seq<Cell>>)
    ensures |m| == |g|
    ensures forall r :: 0 <= r < |g| ==>
              m[r] == if 1 <= r <= n && Matches(g[r], invCol, selected) then Put(g[r], statusCol, Str(status)) else g[r]
  {
    seq(|g|, r requires 0 <= r < |g| =>
      if 1 <= r <= n && Matches(g[r], invCol, selected) then Put(g[r], statusCol, Str(status)) else g[r])
  }

  /** Marking one more row changes that row alone, and only when it belongs to the invoice. */
  lemma MarkedThroughStep(g: seq<seq<Cell>>, invCol: nat, statusCol: nat, selected: string, status: string, i: nat)
    requires i + 1 < |g|
    ensures MarkedThrough(g, invCol, statusCol, selected, status, i + 1) ==
              if Matches(g[i + 1], invCol, selected)
              then MarkedThrough(g, invCol, statusCol, selected, status, i)[i + 1 := Put(g[i + 1], statusCol, Str(status))]
              else MarkedThrough(g, invCol, statusCol, selected, status, i)
  {
  }

  /** The grid after every data row of the selected invoice has its status cell set. */
  function Marked(g: seq<seq<Cell>>, invCol: nat, statusCol: nat, selected: string, status: string): (m: seq<seq<Cell>>)
    ensures |m| == |g|
    ensures forall r :: 0 <= r < |g| ==>
              m[r] == if 1 <= r && Matches(g[r], invCol, selected) then Put(g[r], statusCol, Str(status)) else g[r]
  {
    MarkedThrough(g, invCol, statusCol, selected, status, |g|)
  }

  datatype SheetError = MissingColumn(name: string)

  /** Cancel sets "Cancelled"; Restore sets "Active". */
  datatype Action = Cancel | Restore

  function NewStatus(a: Action): string
  {
    match a
    case Cancel => Cancelled
    case Restore => Active
  }

  /**
   * What a status change does to the grid: a missing "Invoice No" column raises
   * before any write, a missing "Status" column raises at the first matching row
   * (so only when there is one), and otherwise every matching row is marked.
   */
  function StatusUpdate(g: seq<seq<Cell>>, selected: string, status: string): (r: Result<seq<seq<Cell>>, SheetError>)
    ensures r == Err(MissingColumn("Invoice No")) <==> ColumnIndex(Columns(g), "Invoice No").None?
    ensures r == Err(MissingColumn("Status")) <==>
              && ColumnIndex(Columns(g), "Invoice No").Some?
              && MatchCount(g[1..], ColumnIndex(Columns(g), "Invoice No").value, selected) > 0
              && ColumnIndex(Columns(g), "Status").None?
    ensures r.Ok? <==>
              && ColumnIndex(Columns(g), "Invoice No").Some?
              && (|| ColumnIndex(Columns(g), "Status").Some?
                  || MatchCount(g[1..], ColumnIndex(Columns(g), "Invoice No").value, selected) == 0)
    ensures r.Ok? ==> |r.value| == |g| && r.value[0] == g[0]
  {
    var inv := ColumnIndex(Columns(g), "Invoice No");
    if inv.None? then Err(MissingColumn("Invoice No"))
    else
      var st := ColumnIndex(Columns(g), "Status");
      if st.None? then
        if MatchCount(g[1..], inv.value, selected) > 0 then Err(MissingColumn("Status")) else Ok(g)
      else Ok(Marked(g, inv.value, st.value, selected, status))
  }

  /**
   * After a successful status change, exactly the Status cell of every row of the
   * selected invoice holds the new status; every other cell reads as before.
   */
  lemma StatusUpdateCells(g: seq<seq<Cell>>, selected: string, status: string, r: nat, k: nat)
    requires StatusUpdate(g, selected, status).Ok? && r < |g|
    ensures var g' := StatusUpdate(g, selected, status).value;
      var inv := ColumnIndex(Columns(g), "Invoice No").value;
      && (r == 0 || !Matches(g[r], inv, selected) ==> g'[r] == g[r])
      && (1 <= r && Matches(g[r], inv, selected) ==>
            At(g'[r], k) == if Some(k) == ColumnIndex(Columns(g), "Status") then Str(status) else At(g[r], k))
  {
  }

  /** Applying the same status change twice leaves the sheet as applying it once. */
  lemma StatusUpdateIdempotent(g: seq<seq<Cell>>, selected: string, status: string)
    requires StatusUpdate(g, selected, status).Ok?
    ensures StatusUpdate(StatusUpdate(g, selected, status).value, selected, status) == StatusUpdate(g, selected, status)
  {
    var g1 := StatusUpdate(g, selected, status).value;
    var inv := ColumnIndex(Columns(g), "Invoice No").value;
    var st := ColumnIndex(Columns(g), "Status");
    if st.Some? {
      var sc := st.value;
      assert inv != sc;
      assert Columns(g1) == Columns(g);
      var g2 := Marked(g1, inv, sc, selected, status);
      forall r | 0 <= r < |g| ensures g2[r] == g1[r] {
        if 1 <= r && Matches(g[r], inv, selected) {
          assert At(g1[r], inv) == At(g[r], inv);
          PutTwice(g[r], sc, Str(status));
        } else if 1 <= r {
          assert !Matches(g1[r], inv, selected);
        }
      }
      assert g2 == g1;
    }
  }

  /** Extending the rows by one adds one to the count exactly when the new row matches. */
  lemma MatchCountStep(rows: seq<seq<Cell>>, i: nat, invCol: nat, selected: string)
    requires i < |rows|
    ensures MatchCount(rows[..i + 1], invCol, selected) ==
              MatchCount(rows[..i], invCol, selected) + (if Matches(rows[i], invCol, selected) then 1 else 0)
  {
    assert rows[..i + 1][..i] == rows[..i];
  }

  /**
   * The first data row of the selected invoice, as `selected_df.iloc[0]` picks it
   * (an index into the data rows, which start at grid row 1).
   */
  function FirstInvoiceRow(rows: seq<seq<Cell>>, invCol: nat, selected: string): (r: Option<nat>)
    ensures r.Some? ==> r.value < |rows| && Matches(rows[r.value], invCol, selected)
    ensures r.Some? ==> forall k :: 0 <= k < r.value ==> !Matches(rows[k], invCol, selected)
    ensures r.None? ==> forall k :: 0 <= k < |rows| ==> !Matches(rows[k], invCol, selected)
  {
    if rows == [] then None
    else if Matches(rows[0], invCol, selected) then Some(0)
    else match FirstInvoiceRow(rows[1..], invCol, selected)
      case None => None
      case Some(k) => Some(k + 1)
  }

  /**
   * The only status action offered for the selected invoice: Cancel when the
   * first row of the invoice is "Active" (or when there is no row or no Status
   * column, which default to "Active"), Restore otherwise. Listing the invoice
   * numbers of a frame without an "Invoice No" column raises.
   */
  function OfferedAction(g: seq<seq<Cell>>, selected: string): (a: Result<Action, SheetError>)
    ensures a == Err(MissingColumn("Invoice No")) <==> ColumnIndex(Columns(g), "Invoice No").None?
    ensures a.Ok? <==> ColumnIndex(Columns(g), "Invoice No").Some?
    ensures a.Ok? ==>
      var inv := ColumnIndex(Columns(g), "Invoice No").value;
      var first := FirstInvoiceRow(g[1..], inv, selected);
      var st := ColumnIndex(Columns(g), "Status");
      a.value == Restore <==> first.Some? && st.Some? && At(g[1..][first.value], st.value) != Str(Active)
  {
    match ColumnIndex(Columns(g), "Invoice No")
    case None => Err(MissingColumn("Invoice No"))
    case Some(inv) =>
      var first := FirstInvoiceRow(g[1..], inv, selected);
      var st := ColumnIndex(Columns(g), "Status");
      var status := if first.Some? && st.Some? then At(g[1..][first.value], st.value) else Str(Active);
      if status == Str(Active) then Ok(Cancel) else Ok(Restore)
  }

  /** Rows that match exactly where other rows do have the same first match. */
  lemma SameFirstInvoiceRow(rows: seq<seq<Cell>>, rows': seq<seq<Cell>>, invCol: nat, selected: string)
    requires |rows'| == |rows|
    requires forall k :: 0 <= k < |rows| ==> Matches(rows'[k], invCol, selected) == Matches(rows[k], invCol, selected)
    ensures FirstInvoiceRow(rows', invCol, selected) == FirstInvoiceRow(rows, invCol, selected)
  {
  }

  /** After cancelling an invoice Restore is offered for it, and after restoring it Cancel. */
  lemma OfferedActionToggles(g: seq<seq<Cell>>, selected: string, action: Action)
    requires StatusUpdate(g, selected, NewStatus(action)).Ok?
    requires ColumnIndex(Columns(g), "Invoice No").Some?
    requires MatchCount(g[1..], ColumnIndex(Columns(g), "Invoice No").value, selected) > 0
    ensures var g' := StatusUpdate(g, selected, NewStatus(action)).value;
      OfferedAction(g', selected) == Ok(if action == Cancel then Restore else Cancel)
  {
    var inv := ColumnIndex(Columns(g), "Invoice No").value;
    var sc := ColumnIndex(Columns(g), "Status").value;
    var v := Str(NewStatus(action));
    var g1 := Marked(g, inv, sc, selected, NewStatus(action));
    assert StatusUpdate(g, selected, NewStatus(action)).value == g1;
    assert Columns(g1) == Columns(g);
    assert inv != sc;
    var first := FirstInvoiceRow(g[1..], inv, selected);
    if first.None? {
      NoMatchCount(g[1..], inv, selected);
    }
    var f := first.value;
    forall k | 0 <= k < |g| - 1 ensures Matches(g1[1..][k], inv, selected) == Matches(g[1..][k], inv, selected) {
      assert g1[1..][k] == g1[k + 1] && g[1..][k] == g[k + 1];
      assert At(Put(g[k + 1], sc, v), inv) == At(g[k + 1], inv);
    }
    SameFirstInvoiceRow(g[1..], g1[1..], inv, selected);
    assert g1[1..][f] == g1[f + 1] == Put(g[f + 1], sc, v);
    assert At(g1[1..][f], sc) == v;
  }

  /** The count is positive exactly when some row belongs to the selected invoice. */
  lemma {:induction false} MatchCountPositiveIff(rows: seq<seq<Cell>>, invCol: nat, selected: string)
    ensures MatchCount(rows, invCol, selected) > 0 <==> exists r :: 0 <= r < |rows| && Matches(rows[r], invCol, selected)
  {
    if rows != [] {
      var init := rows[..|rows| - 1];
      MatchCountPositiveIff(init, invCol, selected);
      if exists r :: 0 <= r < |init| && Matches(init[r], invCol, selected) {
        var r :| 0 <= r < |init| && Matches(init[r], invCol, selected);
        assert rows[r] == init[r];
      }
      if exists r :: 0 <= r < |rows| && Matches(rows[r], invCol, selected) {
        var r :| 0 <= r < |rows| && Matches(rows[r], invCol, selected);
        if r < |init| {
          assert init[r] == rows[r];
        }
      }
    }
  }

  /** Rows none of which match have a zero count. */
  lemma {:induction false} NoMatchCount(rows: seq<seq<Cell>>, invCol: nat, selected: string)
    requires forall r :: 0 <= r < |rows| ==> !Matches(rows[r], invCol, selected)
    ensures MatchCount(rows, invCol, selected) == 0
  {
    if rows != [] {
      NoMatchCount(rows[..|rows| - 1], invCol, selected);
    }
  }

  /** The shared spreadsheet, held as a grid of cells. */
  class Sheet {
    var grid: seq<seq<Cell>>

    constructor(initial: seq<seq<Cell>>)
      ensures grid == initial
    {
      grid := initial;
    }

    /** `worksheet.update_cell(row, col, value)`, coordinates counted from 1. */
    method UpdateCell(row: nat, col: nat, value: Cell)
      requires 1 <= row <= |grid| && 1 <= col
      modifies this
      ensures grid == old(grid)[row - 1 := Put(old(grid)[row - 1], col - 1, value)]
    {
      grid := grid[row - 1 := Put(grid[row - 1], col - 1, value)];
    }

    /**
     * `append_to_google_sheet`: the header goes in as row 1 when row 1 is blank,
     * then the rows follow the last row, each row one short of the header
     * completed with the current user's location.
     */
    method AppendInvoiceRows(rows: seq<seq<Cell>>, users: map<string, Users.UserRecord>, username: string)
      modifies this
      ensures var base := if FirstRowBlank(old(grid)) then [HeaderRow()] + old(grid) else old(grid);
        var location := Users.LocationOf(users, username);
        && |grid| == |base| + |rows|
        && grid[..|base|] == base
        && (forall i :: 0 <= i < |rows| && |rows[i]| == RowWidth ==> grid[|base| + i] == rows[i] + [Str(location)])
        && (forall i :: 0 <= i < |rows| && |rows[i]| != RowWidth ==> grid[|base| + i] == rows[i])
    {
      if FirstRowBlank(grid) {
        grid := [HeaderRow()] + grid;
      }
      var location := Users.LocationOf(users, username);
      var padded := PadLocation(rows, location);
      grid := grid + padded;
    }

    /**
     * The Cancel / Restore handler: read the records, then write the new status
     * into sheet cell (idx + 2, status column + 1) for every data row idx of the
     * selected invoice. Returns how many cells were written.
     */
    method SetStatus(selected: string, action: Action) returns (result: Result<nat, SheetError>)
      modifies this
      ensures StatusUpdate(old(grid), selected, NewStatus(action)).Err? ==>
                result.Err? && result.error == StatusUpdate(old(grid), selected, NewStatus(action)).error
                && grid == old(grid)
      ensures StatusUpdate(old(grid), selected, NewStatus(action)).Ok? ==>
                && result.Ok?
                && grid == StatusUpdate(old(grid), selected, NewStatus(action)).value
                && result.value == MatchCount(old(grid)[1..], ColumnIndex(Columns(old(grid)), "Invoice No").value, selected)
    {
      var columns := Columns(grid);
      var inv := ColumnIndex(columns, "Invoice No");
      if inv.None? {
        return Err(MissingColumn("Invoice No"));
      }
      var st := ColumnIndex(columns, "Status");
      result := WriteStatus(selected, inv.value, st, NewStatus(action));
    }

    /**
     * The loop of the handler over the data rows: a matching row raises when
     * there is no Status column, and otherwise has its status cell written.
     */
    method WriteStatus(selected: string, invCol: nat, st: Option<nat>, status: string)
      returns (result: Result<nat, SheetError>)
      requires |grid| >= 1
      modifies this
      ensures st.None? ==> grid == old(grid)
      ensures st.None? ==>
                result == if MatchCount(old(grid)[1..], invCol, selected) > 0 then Err(MissingColumn("Status")) else Ok(0)
      ensures st.Some? ==>
                && grid == Marked(old(grid), invCol, st.value, selected, status)
                && result == Ok(MatchCount(old(grid)[1..], invCol, selected))
    {
      if st.None? {
        var data := grid[1..];
        for i := 0 to |data|
          invariant grid == old(grid)
          invariant MatchCount(data[..i], invCol, selected) == 0
        {
          MatchCountStep(data, i, invCol, selected);
          if Matches(data[i], invCol, selected) {
            MatchCountMonotone(data, i + 1, invCol, selected);
            return Err(MissingColumn("Status"));
          }
        }
        assert data[..|data|] == data;
        return Ok(0);
      }
      var count := MarkRows(selected, invCol, st.value, status);
      result := Ok(count);
    }

    /**
     * The loop of the handler when the Status column exists: it writes the
     * status cell of every data row of the selected invoice, top to bottom, and
     * counts the writes.
     */
    method MarkRows(selected: string, invCol: nat, statusCol: nat, status: string) returns (count: nat)
      requires |grid| >= 1
      modifies this
      ensures grid == Marked(old(grid), invCol, statusCol, selected, status)
      ensures count == MatchCount(old(grid)[1..], invCol, selected)
    {
      var records := grid;
      var data := records[1..];
      count := 0;
      for i := 0 to |data|
        invariant count == MatchCount(data[..i], invCol, selected)
        invariant grid == MarkedThrough(records, invCol, statusCol, selected, status, i)
      {
        MatchCountStep(data, i, invCol, selected);
        MarkedThroughStep(records, invCol, statusCol, selected, status, i);
        assert data[i] == records[i + 1];
        if Matches(data[i], invCol, selected) {
          UpdateCell(i + 2, statusCol + 1, Str(status));
          count := count + 1;
        }
      }
      assert data[..|data|] == data;
      assert MarkedThrough(records, invCol, statusCol, selected, status, |data|)
          == MarkedThrough(records, invCol, statusCol, selected, status, |records|);
    }
  }

  /** A prefix never has more matching rows than the whole. */
  lemma {:induction false} MatchCountMonotone(rows: seq<seq<Cell>>, n: nat, invCol: nat, selected: string)
    requires n <= |rows|
    ensures MatchCount(rows[..n], invCol, selected) <= MatchCount(rows, invCol, selected)
    decreases |rows| - n
  {
    if n < |rows| {
      MatchCountStep(rows, n, invCol, selected);
      MatchCountMonotone(rows, n + 1, invCol, selected);
    } else {
      assert rows[..n] == rows;
    }
  }
}
