/**
 * The invoice search behind the CSV export (invoice_generator.py:729-750): the
 * ledger records pass through a chain of filters, each keeping the rows that
 * meet one criterion, in their original order.
 *
 * A record is given here by the fields the filters read. Its "Date" is the day
 * number `pd.to_datetime(..., dayfirst=True, errors="coerce")` produces, or None
 * for a value that does not parse (NaT). Date parsing itself is not modelled.
 */
module Export {
  import opened Common
  import Ledger

  datatype ExportRow = ExportRow(stall: Ledger.Cell, payment: Ledger.Cell, status: Ledger.Cell, date: Option<int>)

  /** What the sidebar collects: three multiselects and an optional date range (both ends inclusive). */
  datatype Filters = Filters(
    stalls: seq<Ledger.Cell>,
    payments: seq<Ledger.Cell>,
    statuses: seq<Ledger.Cell>,
    useDate: bool,
    start: int,
    end: int)

  /** One filtering step of the chain. */
  datatype Criterion =
    | StallIn(stalls: seq<Ledger.Cell>)
    | PaymentIn(payments: seq<Ledger.Cell>)
    | StatusIn(statuses: seq<Ledger.Cell>)
    | OnOrAfter(day: int)
    | OnOrBefore(day: int)

  /** `isin` keeps a row whose value is among the selected; a NaT date fails every comparison. */
  predicate Satisfies(r: ExportRow, c: Criterion)
  {
    match c
    case StallIn(s) => r.stall in s
    case PaymentIn(s) => r.payment in s
    case StatusIn(s) => r.status in s
    case OnOrAfter(d) => r.date.Some? && r.date.value >= d
    case OnOrBefore(d) => r.date.Some? && r.date.value <= d
  }

  /** A row meets every criterion of the list. */
  predicate SatisfiesAll(r: ExportRow, cs: seq<Criterion>)
  {
    forall c :: c in cs ==> Satisfies(r, c)
  }

  /** The rows that meet every criterion, in their original order. */
  function Select(rows: seq<ExportRow>, cs: seq<Criterion>): (r: seq<ExportRow>)
    ensures |r| <= |rows|
    ensures forall x :: x in r <==> x in rows && SatisfiesAll(x, cs)
  {
    if rows == [] then []
    else if SatisfiesAll(rows[0], cs) then [rows[0]] + Select(rows[1..], cs)
    else Select(rows[1..], cs)
  }

  /** A single record is kept exactly when it meets every criterion. */
  lemma SelectOne(x: ExportRow, cs: seq<Criterion>)
    ensures Select([x], cs) == if SatisfiesAll(x, cs) then [x] else []
  {
    assert [x][1..] == [];
  }

  /**
   * Selection distributes over concatenation: with `SelectOne` this pins down
   * the order of the kept records and how often each is kept.
   */
  lemma {:induction false} SelectAppend(a: seq<ExportRow>, b: seq<ExportRow>, cs: seq<Criterion>)
    ensures Select(a + b, cs) == Select(a, cs) + Select(b, cs)
  {
    if a == [] {
      assert a + b == b;
    } else {
      var ab := a + b;
      assert ab[0] == a[0] && ab[1..] == a[1..] + b;
      SelectAppend(a[1..], b, cs);
      if SatisfiesAll(a[0], cs) {
        assert Select(ab, cs) == [a[0]] + Select(ab[1..], cs);
        assert Select(a, cs) == [a[0]] + Select(a[1..], cs);
      } else {
        assert Select(ab, cs) == Select(ab[1..], cs);
        assert Select(a, cs) == Select(a[1..], cs);
      }
    }
  }

  /** With no criterion every row is kept, in order. */
  lemma {:induction false} SelectNothing(rows: seq<ExportRow>)
    ensures Select(rows, []) == rows
  {
    if rows != [] {
      SelectNothing(rows[1..]);
    }
  }

  /** Filtering a selection by one more criterion is selecting by the longer list. */
  lemma {:induction false} SelectThen(rows: seq<ExportRow>, cs: seq<Criterion>, c: Criterion)
    ensures Select(Select(rows, cs), [c]) == Select(rows, cs + [c])
  {
    if rows != [] {
      SelectThen(rows[1..], cs, c);
      assert forall c' :: c' in cs + [c] <==> c' in cs || c' == c;
    }
  }

  /** The order of the criteria does not matter. */
  lemma {:induction false} SelectCommutes(rows: seq<ExportRow>, c1: Criterion, c2: Criterion)
    ensures Select(rows, [c1, c2]) == Select(rows, [c2, c1])
  {
    if rows != [] {
      SelectCommutes(rows[1..], c1, c2);
      assert forall c :: c in [c1, c2] <==> c in [c2, c1];
    }
  }

  /** The criteria the chain applies: an empty multiselect restricts nothing. */
  function Active(f: Filters): (cs: seq<Criterion>)
    ensures |cs| <= 5
    ensures f.stalls == [] && f.payments == [] && f.statuses == [] && !f.useDate ==> cs == []
  {
    (if f.stalls != [] then [StallIn(f.stalls)] else [])
    + (if f.payments != [] then [PaymentIn(f.payments)] else [])
    + (if f.statuses != [] then [StatusIn(f.statuses)] else [])
    + (if f.useDate then [OnOrAfter(f.start), OnOrBefore(f.end)] else [])
  }

  /**
   * One step of the chain, `filtered_df = filtered_df[mask]`: narrowing a
   * selection by one more criterion.
   */
  method Narrow(filtered: seq<ExportRow>, c: Criterion, ghost rows: seq<ExportRow>, ghost applied: seq<Criterion>)
    returns (narrowed: seq<ExportRow>)
    requires filtered == Select(rows, applied)
    ensures narrowed == Select(rows, applied + [c])
  {
    SelectThen(rows, applied, c);
    narrowed := Select(filtered, [c]);
  }

  /**
   * `filtered_df` as the chain leaves it: the records kept by every active
   * filter, in ledger order.
   */
  method ApplyFilters(rows: seq<ExportRow>, f: Filters) returns (filtered: seq<ExportRow>)
    ensures filtered == Select(rows, Active(f))
  {
    ghost var a := if f.stalls != [] then [StallIn(f.stalls)] else [];
    ghost var b := if f.payments != [] then [PaymentIn(f.payments)] else [];
    ghost var c := if f.statuses != [] then [StatusIn(f.statuses)] else [];
    ghost var d := if f.useDate then [OnOrAfter(f.start), OnOrBefore(f.end)] else [];
    assert Active(f) == a + b + c + d;
    filtered := rows;
    SelectNothing(rows);
    ghost var applied: seq<Criterion> := [];
    if f.stalls != [] {
      filtered := Narrow(filtered, StallIn(f.stalls), rows, applied);
      applied := applied + [StallIn(f.stalls)];
    }
    assert applied == a;
    if f.payments != [] {
      filtered := Narrow(filtered, PaymentIn(f.payments), rows, applied);
      applied := applied + [PaymentIn(f.payments)];
    }
    assert applied == a + b;
    if f.statuses != [] {
      filtered := Narrow(filtered, StatusIn(f.statuses), rows, applied);
      applied := applied + [StatusIn(f.statuses)];
    }
    assert applied == a + b + c;
    if f.useDate {
      filtered := Narrow(filtered, OnOrAfter(f.start), rows, applied);
      applied := applied + [OnOrAfter(f.start)];
      filtered := Narrow(filtered, OnOrBefore(f.end), rows, applied);
      applied := applied + [OnOrBefore(f.end)];
    }
    assert applied == a + b + c + d;
  }

  /** A row is exported exactly when it meets each filter the user set. */
  lemma ExportedIff(rows: seq<ExportRow>, f: Filters, x: ExportRow)
    ensures x in Select(rows, Active(f)) <==>
              && x in rows
              && (f.stalls != [] ==> x.stall in f.stalls)
              && (f.payments != [] ==> x.payment in f.payments)
              && (f.statuses != [] ==> x.status in f.statuses)
              && (f.useDate ==> x.date.Some? && f.start <= x.date.value <= f.end)
  {
    var cs := Active(f);
    var a := if f.stalls != [] then [StallIn(f.stalls)] else [];
    var b := if f.payments != [] then [PaymentIn(f.payments)] else [];
    var c := if f.statuses != [] then [StatusIn(f.statuses)] else [];
    var d := if f.useDate then [OnOrAfter(f.start), OnOrBefore(f.end)] else [];
    assert cs == a + b + c + d;
    assert SatisfiesAll(x, cs) <==> SatisfiesAll(x, a) && SatisfiesAll(x, b) && SatisfiesAll(x, c) && SatisfiesAll(x, d) by {
      assert forall y :: y in cs <==> y in a || y in b || y in c || y in d;
    }
    assert SatisfiesAll(x, a) <==> (f.stalls != [] ==> x.stall in f.stalls) by {
      if f.stalls != [] { assert StallIn(f.stalls) in a; }
    }
    assert SatisfiesAll(x, b) <==> (f.payments != [] ==> x.payment in f.payments) by {
      if f.payments != [] { assert PaymentIn(f.payments) in b; }
    }
    assert SatisfiesAll(x, c) <==> (f.statuses != [] ==> x.status in f.statuses) by {
      if f.statuses != [] { assert StatusIn(f.statuses) in c; }
    }
    assert SatisfiesAll(x, d) <==> (f.useDate ==> x.date.Some? && f.start <= x.date.value <= f.end) by {
      if f.useDate { assert OnOrAfter(f.start) in d && OnOrBefore(f.end) in d; }
    }
  }
}
