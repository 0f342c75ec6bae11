# Tulip invoice generator: a Dafny model of its core

The invoice generator is a Streamlit script for billing counters at a market.
A clerk fills in a form. The script numbers the invoice per billing counter,
computes item and invoice totals, and appends one ledger row per item to a
shared spreadsheet. Each row is tagged with the clerk's location. Admins can
cancel or restore an invoice, which rewrites the Status cell of each of its
rows. They can also filter the ledger for a CSV export. The master account
manages the user store: it can create users, reset passwords and assign
locations.

This project models that core with the I/O stripped away:

- `common.dfy`: `Option` and `Result`.
- `text.dfy`: the Python string behaviour the core relies on: `str.strip`,
  `str.upper` (ASCII letters), `str(n)`, `{n:02d}`, `int()` of a digit run,
  and `startswith`.
- `numbering.dfy`: invoice-number allocation. The next sequence number comes
  from the ledger's existing invoice numbers for the counter. The number is
  rendered as `{counter}_INV{n:02d}`. The error case is modelled: some rows
  start with the counter but none carries a parsable suffix, so `int(NaN)`
  raises.
- `totals.dfy`: line items (`total = price*qty`, `final = total*(1-d/100)`)
  and the invoice totals. Amounts are exact reals.
- `ledger.dfy`:
  - the 14-field rows written per item, and the location padding done on append;
  - the spreadsheet as a `Sheet` class holding a grid of cells, with
    `UpdateCell`, `AppendInvoiceRows` and the cancel/restore handler `SetStatus`;
  - the choice of which of the two actions is offered.
- `users.dfy`: the credential store as a `UserStore` class with the
  assign-location, reset-password and create-user handlers. Their validation
  order is kept exactly. Hashing and `bcrypt.checkpw` are function parameters.
- `export.dfy`: the sidebar filter chain as an order-preserving selection.

Row r of the grid is sheet row r + 1, so the header is sheet row 1.
`update_cell(idx + 2, col + 1)` therefore writes grid row `idx + 1`, which
is data row `idx`. A data row shorter than the header reads as `""` in its
missing cells, as the record reader pads it. A sheet without data rows
gives a record frame with no columns. A lookup of "Invoice No" or "Status"
in it is the error `MissingColumn`.

## Model

| member | source | states |
|---|---|---|
| Text.IsDigit | invoice_generator.py:228 | `\d`: an ASCII decimal digit, `0` to `9` |
| Text.Decimal | invoice_generator.py:257 | `str(n)` is a non-empty digit string that parses back to n, one digit exactly when n < 10, with no leading zero otherwise |
| Text.Pad2 | invoice_generator.py:234 | `{n:02d}` is at least two digits, parses back to n, and starts with a zero exactly when n < 10 |
| Text.DigitsValue | invoice_generator.py:228-230 | `astype(int)` of a captured digit run: the decimal value read left to right, so leading zeros add nothing |
| Text.LeadingZero | invoice_generator.py:228-230 | `int()` of a digit run ignores a leading zero, so "07" and "7" give the same suffix |
| Text.IsSpace | invoice_generator.py:208 | the characters `str.strip()` removes: Python's `isspace` set (space, tab to carriage return, the file, group, record and unit separators, NEL, no-break space and the Unicode space separators) |
| Text.Strip | invoice_generator.py:208 | the result has no whitespace at either end and is the slice of the input between its leading and trailing whitespace |
| Text.StripUnchanged | invoice_generator.py:208 | stripping a string without edge whitespace returns it unchanged |
| Text.UpperChar | invoice_generator.py:208 | a lower-case ASCII letter becomes the capital at the same alphabet position; every other character is kept |
| Text.Upper | invoice_generator.py:208 | upper-casing keeps the length and maps every character on its own |
| Text.StartsWith | invoice_generator.py:225 | `str.startswith(counter)`: the string is at least as long as the counter and begins with it |
| Numbering.NormalizeCounter | invoice_generator.py:208 | the counter as kept is the stripped input, character by character, with each lower-case ASCII letter capitalised. So it has no lower-case ASCII letter, no edge whitespace, and is no longer than what was typed |
| Numbering.NormalizeIdempotent | invoice_generator.py:208 | normalising a normalised counter changes nothing |
| Numbering.MatchesAt | invoice_generator.py:228 | `{counter}_INV(\d+)` matches at position p: the literal counter followed by `_INV` starts there, and at least one ASCII digit follows it |
| Numbering.FirstMatch | invoice_generator.py:228 | the search finds the leftmost position where `{counter}_INV` is followed by a digit, or reports that there is none |
| Numbering.DigitRunEnd | invoice_generator.py:228 | the greedy `\d+` run ends at the first non-digit or at the end of the string |
| Numbering.Suffix | invoice_generator.py:228-230 | the suffix is absent exactly when no position matches the pattern. Otherwise it is the value of the greedy digit run that follows the leftmost match |
| Numbering.SuffixOfRendered | invoice_generator.py:228-234 | extracting from `{counter}_INV{n:02d}` yields n |
| Numbering.Candidates | invoice_generator.py:225 | a string is kept exactly when it is in the column and starts with the counter |
| Numbering.Parsed | invoice_generator.py:228-230 | a value is in the parsed series exactly when some candidate's suffix extracts to it |
| Numbering.Max | invoice_generator.py:231 | `.max()` of a non-empty series is one of its elements and no element exceeds it |
| Numbering.NextSequence | invoice_generator.py:222-233 | the next number is at least 1. It is 1 when the counter is empty, the snapshot is empty or has no "Invoice No" column, or no row starts with the counter. It fails only when the parsed series is empty |
| Numbering.ParsedFromColumn | invoice_generator.py:225-230 | the parsed series holds exactly the suffixes extracted from rows that start with the counter |
| Numbering.NextSequenceFailsIff | invoice_generator.py:224-233 | allocation fails exactly when rows start with the counter but none of them has a parsable suffix (`int(NaN)` raises) |
| Numbering.NextSequenceExceedsSuffixes | invoice_generator.py:224-233 | a successful next number exceeds every parsed suffix, and a next number above 1 is one more than a suffix that occurs |
| Numbering.InvoiceNumber | invoice_generator.py:221-234 | empty for an empty counter. Otherwise it is `counter + "_INV" + pad2(next)`, failing exactly when the next sequence number does |
| Numbering.InvoiceNumberParsesBack | invoice_generator.py:228-234 | the number handed out starts with `{counter}_INV` and its suffix extracts to the sequence number |
| Numbering.NumberIsFresh | invoice_generator.py:224-234 | the number handed out occurs nowhere in the snapshot it was computed from |
| Numbering.FirstInvoiceOfCounter | invoice_generator.py:221-234 | on an empty ledger counter A gets `A_INV01` |
| Numbering.ThirdMainSequence | invoice_generator.py:224-233 | with the numbers rendered for MAIN 1 and 2 and OTHER_INV05 in the ledger, counter MAIN gets sequence number 3 |
| Numbering.MainRendered | invoice_generator.py:234 | the numbers rendered for counter MAIN and sequence numbers 1, 2 and 3 are MAIN_INV01, MAIN_INV02 and MAIN_INV03 |
| Numbering.ThirdMainInvoice | invoice_generator.py:221-234 | with MAIN_INV01, MAIN_INV02 and OTHER_INV05 in the ledger, the next invoice number of counter MAIN is MAIN_INV03 |
| Totals.MakeItem | invoice_generator.py:243-264 | the item is numbered `str(i+1)` and copies the name, price, quantity and discount % of its entry. Its `total` is `price*qty`, and its discount `total - final` is `total*d/100`. A zero discount keeps the total and a 100% discount gives 0. Within the form's bounds, `0 <= final <= total` |
| Totals.CollectItems | invoice_generator.py:240-265 | one item per entry, in entry order, each built from its entry and position |
| Totals.CollectedItemsWellFormed | invoice_generator.py:240-265 | items from valid entries have bounded totals and pairwise distinct serial numbers |
| Totals.SumTotal | invoice_generator.py:353 | `total_amount`: the sum of the item totals, in item order |
| Totals.SumDiscount | invoice_generator.py:354 | `discount_amt`: the sum over the items of `total - final_total` |
| Totals.SumFinal | invoice_generator.py:355 | `grand_total`: the sum of the items' final totals |
| Totals.DiscountIsDifference | invoice_generator.py:353-355 | the summed discounts equal the summed totals minus the summed final totals |
| Totals.SumsBounded | invoice_generator.py:353-355 | over bounded items, `0 <= grand <= total amount` and `0 <= discount <= total amount` |
| Totals.ComputeTotals | invoice_generator.py:353-360 | `total_amount` is the sum of item totals, `discount_amt` the sum of `total - final`, and `grand_total` the sum of final totals, which is the on-screen subtotal (line 267). So `total_amount = discount_amt + grand_total`. Over bounded items every amount is non-negative and the discount does not exceed the total |
| Totals.TwoItemInvoice | invoice_generator.py:253-254 | for 100 x 2 at 10% and 50 x 1 at 0%, the final totals are 180 and 50, and the totals are 250 / 20 / 230 |
| Totals.ValidEntry | invoice_generator.py:243-252 | the bounds the form's number inputs enforce: price at least 0, quantity at least 1, discount between 0 and 100 |
| Ledger.HeaderRow | invoice_generator.py:164-180 | the inserted header holds the fifteen column names in order |
| Ledger.HeaderNamesAt | invoice_generator.py:164-180 | the header's fifteen names by column: Stall No, Invoice No, Date, Phone No, Payment Method, Artisan Code, Item, Qty, Price, Total (Item), Discount%, Final Total (Item), Final Total (Invoice), Status, Location |
| Ledger.ItemRow | invoice_generator.py:380-395 | the list built for one item: stall, invoice number, date, phone, payment method, artisan code, then the item's name, quantity, price, total, discount % and final total, then the grand total and "Active" |
| Ledger.BuildRows | invoice_generator.py:379-397 | one 14-field row per item, in item order. In header column order, each row holds the invoice's stall, invoice number, date, phone, payment method, artisan code, then its own item's name, quantity, price, total, discount % and final total, then the invoice's grand total and "Active" |
| Ledger.RowsShareInvoiceFields | invoice_generator.py:379-397 | any two rows of one invoice agree on stall, invoice number, date, phone, payment method, artisan code, grand total and status |
| Ledger.RowsDifferOnlyByItem | invoice_generator.py:379-397 | two rows of one invoice are equal exactly when their items agree on every item field |
| Ledger.PadLocation | invoice_generator.py:192-197 | same number of rows in the same order. A row of 14 fields gets the location appended and every other row is unchanged |
| Ledger.FirstRowBlank | invoice_generator.py:182 | `not worksheet.row_values(1)`: the sheet has no first row, or every cell in it is blank |
| Ledger.BuiltRowsGetLocation | invoice_generator.py:192-197 | padded invoice rows have all 15 fields, keep their 14 built fields, and hold the location in the last column, which the header names "Location" |
| Ledger.Put | invoice_generator.py:429 | writing a cell changes that cell alone and extends a short row with blanks |
| Ledger.PutTwice | invoice_generator.py:429 | writing the same value into a cell twice equals writing it once |
| Ledger.At | invoice_generator.py:426 | the value a record gives column k of a row: the cell itself, or "" for a missing trailing cell, as the record reader pads short rows |
| Ledger.Columns | invoice_generator.py:426-427 | the columns of `pd.DataFrame(ws.get_all_records())`: the header row, or none at all when the sheet has no data rows |
| Ledger.ColumnIndex | invoice_generator.py:429 | `get_loc` gives the first column with that name, or reports that none has it |
| Ledger.Matches | invoice_generator.py:428 | the mask `df_all["Invoice No"] == selected_invoice` for one data row |
| Ledger.MatchCount | invoice_generator.py:428-429 | the number of rows the loop visits: the rows of the selected invoice, never more than there are rows |
| Ledger.MatchCountPositiveIff | invoice_generator.py:428-429 | the loop visits some row exactly when some data row belongs to the selected invoice |
| Ledger.FirstInvoiceRow | invoice_generator.py:417-420 | the first data row of the selected invoice, or none when no row matches |
| Ledger.Marked | invoice_generator.py:428-429 | a data row of the selected invoice gets its status cell set; the header and every other row are kept |
| Ledger.NewStatus | invoice_generator.py:428-438 | the Cancel button writes "Cancelled" (line 429) and the Restore button writes "Active" (line 438) |
| Ledger.StatusUpdate | invoice_generator.py:425-440 | a missing "Invoice No" column is the error `MissingColumn("Invoice No")`. A missing "Status" column is the error `MissingColumn("Status")` exactly when some row matches. The update succeeds exactly when neither error occurs, and a success keeps the header and the row count |
| Ledger.StatusUpdateCells | invoice_generator.py:425-440 | after a successful update, each row of the selected invoice has the new status in its Status cell and every other cell unchanged. The header and all other rows are unchanged |
| Ledger.StatusUpdateIdempotent | invoice_generator.py:425-440 | applying the same status change twice gives the same sheet as applying it once |
| Ledger.OfferedAction | invoice_generator.py:413-424 | an action is offered exactly when the "Invoice No" column exists; without it, listing the invoice numbers is the error `MissingColumn("Invoice No")`. Restore is offered exactly when a first row of the invoice exists, the Status column exists, and that row's status is not "Active"; in every other case Cancel |
| Ledger.OfferedActionToggles | invoice_generator.py:419-440 | after cancelling an invoice that has rows, Restore is offered for it, and after restoring it, Cancel |
| Ledger.Sheet.UpdateCell | invoice_generator.py:429 | only the addressed cell (1-based row and column) is rewritten |
| Ledger.Sheet.AppendInvoiceRows | invoice_generator.py:160-199 | the header is inserted as row 1 when row 1 is blank. The old rows stay in place, then the new rows follow in order, each 14-field row padded with the user's location |
| Ledger.Sheet.SetStatus | invoice_generator.py:424-440 | the sheet becomes what `StatusUpdate` gives and the number of cells written is the number of matching rows. On an error nothing is written |
| Ledger.Sheet.WriteStatus | invoice_generator.py:428-429 | without a Status column nothing is written, and the loop raises exactly when some row matches. Otherwise every matching data row has its status cell written, and the count is the number of matching rows |
| Ledger.Sheet.MarkRows | invoice_generator.py:428-429 | with a Status column, the loop writes the status cell of every data row of the selected invoice and no other cell; the number of writes is the number of matching rows |
| Users.LocationOf | invoice_generator.py:186-189 | the user's assigned location, or "" for an unknown user or one without a location |
| Users.CreateCheck | invoice_generator.py:687-694 | rejects an empty username or password, then a taken username, then a password under 6 characters. Each outcome is stated as an if-and-only-if |
| Users.ResetCheck | invoice_generator.py:654-664 | rejects a missing field, then a mismatch, then a password under 6 characters, then (for a master only) a wrong current password. A non-master with matching passwords of length 6 or more always passes |
| Users.InsertFresh | invoice_generator.py:696-700 | adding an untaken username adds exactly that key and keeps every other entry |
| Users.UserStore.AssignLocation | invoice_generator.py:623-624 | the selected user's location becomes the input and nobody else changes |
| Users.UserStore.ResetPassword | invoice_generator.py:654-675 | the outcome is `ResetCheck`. On a rejection nothing changes. On success only the selected user's password becomes the new hash |
| Users.UserStore.CreateUser | invoice_generator.py:681-700 | the outcome is `CreateCheck` on the stripped username. On a rejection nothing changes. On success exactly one entry is added: the stripped name, the hashed password and the role, with no location, and every existing user is unchanged |
| Export.Satisfies | invoice_generator.py:736-750 | one mask: `isin` keeps a row whose stall, payment method or status is among the selected values; a date bound keeps a row whose parsed date is on or after the start or on or before the end, and an unparsed date (NaT) fails both |
| Export.SatisfiesAll | invoice_generator.py:736-750 | a record passes the chain of masks when it passes each one of them |
| Export.Select | invoice_generator.py:736-750 | a record is kept exactly when it is in the ledger and meets every criterion; the result is no longer than the input |
| Export.SelectOne | invoice_generator.py:736-750 | a single record is kept, once, exactly when it meets every criterion |
| Export.SelectAppend | invoice_generator.py:736-750 | selecting from a concatenation concatenates the selections, so records keep their ledger order and multiplicity |
| Export.SelectNothing | invoice_generator.py:736-750 | with no active filter every record is kept, in order |
| Export.SelectThen | invoice_generator.py:736-750 | filtering a selection by one more criterion is selecting by the extended list, so the chain of reassignments is one selection |
| Export.SelectCommutes | invoice_generator.py:736-750 | the order in which two filters are applied does not matter |
| Export.Active | invoice_generator.py:736-750 | no multiselect chosen and the date filter off means no criterion |
| Export.Narrow | invoice_generator.py:737 | one `filtered_df = filtered_df[mask]` step turns the selection by the criteria so far into the selection by those criteria plus one |
| Export.ApplyFilters | invoice_generator.py:730-750 | the filtered records are the ledger records kept by every active filter, in ledger order |
| Export.ExportedIff | invoice_generator.py:730-750 | a record is exported exactly when it is in the ledger and matches every non-empty multiselect. With the date filter on, its date must also parse and fall within the range |

## Left out

- Streamlit widgets, login, page flow, messages and reruns are presentation only. The handlers take their form inputs as parameters.
- The spreadsheet is held in memory. The Google Sheets client, its authentication, and the network calls behind `get_all_records`, `append_rows`, `insert_row` and `update_cell` are not modelled. Nor are the 5-minute cache and its refreshes.
- `get_all_records` converts numeric-looking text to numbers, and `USER_ENTERED` re-parses appended values. A cell keeps the kind it was written with here.
- The snapshot loader `fetch_sheet_df` (lines 135-157) is not modelled. The numbering takes the text of its "Invoice No" column directly. Its stripping of column names and its text conversion of selected columns are therefore not modelled.
- Ledger.OfferedAction: reads the Invoice No and Status cells as stored, while the snapshot behind the buttons has converted them to text. An invoice number the sheet holds as a number matches there but not in the status update; this model does not show that difference.
- Ledger.ColumnIndex: a header that names a column twice is not modelled faithfully. The record frame is built from one dictionary per row, so a duplicated name never yields several positions. Depending on the spreadsheet client, such a header is rejected, or the duplicate collapses and later columns shift, so `get_loc + 1` can miss the sheet column. The model takes the first column with the name instead.
- Ledger.OfferedAction: with no data rows the snapshot is empty and no action is shown at all. The model reports this case like a missing "Invoice No" column.
- Trailing blank rows of the sheet, which `append_rows` skips over, are not modelled. Appended rows follow the last grid row.
- A status update writes its cells one call at a time and is not atomic, and concurrent submissions can race for an invoice number. Concurrency is not modelled. Numbering.NumberIsFresh claims freshness only against the snapshot the number was computed from.
- Numbering.Suffix: the counter is matched as literal text. A counter containing regular-expression metacharacters is not given their regex meaning.
- Numbering.Suffix: only ASCII digits count as `\d`, and the 64-bit integer conversion of an over-long suffix is not modelled.
- Text.Upper: upper-cases ASCII letters only. Other characters whose upper case differs, or expands to several characters, are kept as they are.
- Totals.MakeItem: amounts are exact reals. IEEE-754 rounding and the `:.2f` display formatting are not modelled.
- Password hashing (`stauth.Hasher`) and `bcrypt.checkpw` are function parameters; what they compute is not modelled.
- Pushing the user store to GitHub (`update_config_on_github`) is network I/O and is not modelled.
- PDF rendering with ReportLab, the reprint of a past invoice, and the sales dashboard are not part of this model.
- Export.ExportRow: a record is given by the fields the filters read. Date parsing (`pd.to_datetime` with `dayfirst=True`) and the CSV encoding are not modelled. A date that does not parse is `None` and fails both bounds. Every record is assumed to carry the "Stall No", "Payment Method", "Status" and "Date" columns. So the `KeyError` the sidebar raises for a snapshot without one of the first three (lines 715-722), and the one the date filter raises without "Date" (lines 742-749), are not modelled.
