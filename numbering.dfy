/**
 * Invoice-number allocation (invoice_generator.py:208, 220-234).
 *
 * The counter typed on the form is stripped and upper-cased. The next sequence
 * number for that counter is one more than the largest `(\d+)` captured by the
 * pattern `{counter}_INV(\d+)` among the ledger's invoice numbers that start with
 * the counter, and the invoice number is `{counter}_INV{n:02d}`.
 *
 * The counter is matched as literal text: regular-expression metacharacters in
 * a counter are not given their regex meaning.
 */
module Numbering {
  import opened Common
  import opened Text

  /** The counter name as the form keeps it: `.strip().upper()`. */
  function NormalizeCounter(raw: string): (c: string)
    ensures forall k :: 0 <= k < |c| ==> !IsLower(c[k])
    ensures c == [] || (!IsSpace(c[0]) && !IsSpace(c[|c| - 1]))
    ensures |c| <= |raw|
    ensures |c| == |Strip(raw)| && forall k :: 0 <= k < |c| ==> c[k] == UpperChar(Strip(raw)[k])
  {
    Upper(Strip(raw))
  }

  /** Normalising an already normalised counter changes nothing. */
  lemma NormalizeIdempotent(raw: string)
    ensures NormalizeCounter(NormalizeCounter(raw)) == NormalizeCounter(raw)
  {
  }

  /** The literal part of the pattern `{counter}_INV(\d+)`. */
  function Pattern(counter: string): string
  {
    counter + "_INV"
  }

  /** The pattern matches s at position p: the literal part, then at least one digit. */
  predicate MatchesAt(s: string, p: nat, pat: string)
  {
    p + |pat| < |s| && s[p..p + |pat|] == pat && IsDigit(s[p + |pat|])
  }

  /** The leftmost position at or after p where the pattern matches, as `re.search` finds it. */
  function FirstMatch(s: string, pat: string, p: nat): (r: Option<nat>)
    requires p <= |s|
    ensures r.Some? ==> p <= r.value && MatchesAt(s, r.value, pat)
    ensures r.Some? ==> forall k :: p <= k < r.value ==> !MatchesAt(s, k, pat)
    ensures r.None? ==> forall k: nat :: p <= k ==> !MatchesAt(s, k, pat)
    decreases |s| - p
  {
    if MatchesAt(s, p, pat) then Some(p)
    else if p == |s| then None
    else FirstMatch(s, pat, p + 1)
  }

  /** End of the greedy `\d+` run that starts at i. */
  function DigitRunEnd(s: string, i: nat): (j: nat)
    requires i <= |s|
    ensures i <= j <= |s|
    ensures forall k :: i <= k < j ==> IsDigit(s[k])
    ensures j < |s| ==> !IsDigit(s[j])
    decreases |s| - i
  {
    if i < |s| && IsDigit(s[i]) then DigitRunEnd(s, i + 1) else i
  }

  /**
   * `s.extract(rf"{counter}_INV(\d+)")` followed by `astype(int)`: the integer
   * captured by the leftmost match, or None (NaN, dropped by `dropna`).
   */
  function Suffix(counter: string, s: string): (r: Option<nat>)
    ensures r.None? <==> forall k: nat :: !MatchesAt(s, k, Pattern(counter))
    ensures r.Some? ==>
              var p := FirstMatch(s, Pattern(counter), 0);
              && p.Some?
              && var d := p.value + |Pattern(counter)|;
                 && AllDigits(s[d..DigitRunEnd(s, d)])
                 && r.value == DigitsValue(s[d..DigitRunEnd(s, d)])
  {
    var pat := Pattern(counter);
    match FirstMatch(s, pat, 0)
    case None => None
    case Some(p) =>
      var d := p + |pat|;
      var e := DigitRunEnd(s, d);
      assert AllDigits(s[d..e]);
      Some(DigitsValue(s[d..e]))
  }

  /** An invoice number rendered for a counter parses back to its sequence number. */
  lemma SuffixOfRendered(counter: string, n: nat)
    ensures Suffix(counter, Pattern(counter) + Pad2(n)) == Some(n)
  {
    var pat := Pattern(counter);
    var s := pat + Pad2(n);
    assert s[0..|pat|] == pat;
    assert MatchesAt(s, 0, pat);
    assert FirstMatch(s, pat, 0) == Some(0);
    var e := DigitRunEnd(s, |pat|);
    assert e == |s|;
    assert s[|pat|..e] == Pad2(n);
  }

  /** `_all_df[_all_df["Invoice No"].str.startswith(counter)]`: the rows kept in order. */
  function Candidates(counter: string, column: seq<string>): (r: seq<string>)
    ensures forall s :: s in r <==> s in column && StartsWith(s, counter)
    ensures |r| <= |column|
  {
    if column == [] then []
    else if StartsWith(column[0], counter) then [column[0]] + Candidates(counter, column[1..])
    else Candidates(counter, column[1..])
  }

  /** `.str.extract(...)[0].dropna().astype(int)`: the suffixes that parse, in order. */
  function Parsed(counter: string, rows: seq<string>): (r: seq<nat>)
    ensures forall v :: v in r <==> exists s :: s in rows && Suffix(counter, s) == Some(v)
  {
    if rows == [] then []
    else
      var rest := Parsed(counter, rows[1..]);
      assert forall s :: s in rows <==> s == rows[0] || s in rows[1..];
      match Suffix(counter, rows[0])
      case Some(v) => [v] + rest
      case None => rest
  }

  /** `.max()` of a non-empty series. */
  function Max(xs: seq<nat>): (m: nat)
    requires xs != []
    ensures m in xs
    ensures forall x :: x in xs ==> x <= m
  {
    if |xs| == 1 then xs[0]
    else
      var rest := Max(xs[1..]);
      assert forall x :: x in xs ==> x == xs[0] || x in xs[1..];
      if xs[0] < rest then rest else xs[0]
  }

  datatype NumberingError =
    /** Some rows start with the counter but none holds `{counter}_INV<digits>`:
        `.max()` of the empty series is NaN and `int(NaN)` raises. */
    NoParsableSuffix

  /**
   * `inv_numeric` (invoice_generator.py:221-233). `column` is the text of the
   * snapshot's "Invoice No" column, None when the snapshot is empty or has no
   * such column.
   */
  function NextSequence(counter: string, column: Option<seq<string>>): (r: Result<nat, NumberingError>)
    ensures r.Ok? ==> r.value >= 1
    ensures (counter == [] || column.None? || forall s :: s in column.value ==> !StartsWith(s, counter))
              ==> r == Ok(1)
    ensures r.Err? ==> counter != [] && column.Some? && Parsed(counter, Candidates(counter, column.value)) == []
  {
    if counter == [] || column.None? then Ok(1)
    else
      var candidates := Candidates(counter, column.value);
      if candidates == [] then
        assert forall s :: s in column.value ==> !StartsWith(s, counter);
        Ok(1)
      else
        var parsed := Parsed(counter, candidates);
        assert candidates[0] in column.value && StartsWith(candidates[0], counter);
        if parsed == [] then Err(NoParsableSuffix)
        else Ok(Max(parsed) + 1)
  }

  /** A suffix parsed from a row that starts with the counter is in the parsed series, and only those are. */
  lemma ParsedFromColumn(counter: string, column: seq<string>)
    ensures forall s :: s in column && StartsWith(s, counter) && Suffix(counter, s).Some? ==>
              Suffix(counter, s).value in Parsed(counter, Candidates(counter, column))
    ensures forall v :: v in Parsed(counter, Candidates(counter, column)) ==>
              exists s :: s in column && StartsWith(s, counter) && Suffix(counter, s) == Some(v)
  {
  }

  /**
   * The failure case: allocation fails exactly when some rows start with the
   * counter but none of them carries a parsable `{counter}_INV<digits>`.
   */
  lemma NextSequenceFailsIff(counter: string, column: Option<seq<string>>)
    ensures NextSequence(counter, column).Err? <==>
              && counter != [] && column.Some?
              && (exists s :: s in column.value && StartsWith(s, counter))
              && (forall s :: s in column.value && StartsWith(s, counter) ==> Suffix(counter, s).None?)
  {
  }

  /**
   * When allocation succeeds the next number exceeds every suffix parsed from a
   * row that starts with the counter, and anything above 1 is one more than a
   * suffix that occurs.
   */
  lemma NextSequenceExceedsSuffixes(counter: string, column: Option<seq<string>>)
    requires NextSequence(counter, column).Ok?
    ensures counter != [] && column.Some? ==>
              forall s :: s in column.value && StartsWith(s, counter) && Suffix(counter, s).Some?
                ==> Suffix(counter, s).value < NextSequence(counter, column).value
    ensures NextSequence(counter, column).value > 1 ==>
              && column.Some?
              && exists s :: s in column.value && StartsWith(s, counter)
                   && Suffix(counter, s) == Some(NextSequence(counter, column).value - 1)
  {
    if counter != [] && column.Some? {
      ParsedFromColumn(counter, column.value);
    }
  }

  /** `invoice_no`: empty while no counter is given, else `{counter}_INV{n:02d}`. */
  function InvoiceNumber(counter: string, column: Option<seq<string>>): (r: Result<string, NumberingError>)
    ensures counter == [] ==> r == Ok("")
    ensures r.Err? <==> NextSequence(counter, column).Err?
    ensures r.Ok? && counter != [] ==>
              r.value == Pattern(counter) + Pad2(NextSequence(counter, column).value)
  {
    if counter == [] then Ok("")
    else
      match NextSequence(counter, column)
      case Err(e) => Err(e)
      case Ok(n) => Ok(Pattern(counter) + Pad2(n))
  }

  /** The number handed out carries the counter's prefix and parses back to its sequence number. */
  lemma InvoiceNumberParsesBack(counter: string, column: Option<seq<string>>)
    requires counter != []
    ensures InvoiceNumber(counter, column).Ok? ==>
              && StartsWith(InvoiceNumber(counter, column).value, Pattern(counter))
              && Suffix(counter, InvoiceNumber(counter, column).value) == Some(NextSequence(counter, column).value)
  {
    if InvoiceNumber(counter, column).Ok? {
      var n := NextSequence(counter, column).value;
      SuffixOfRendered(counter, n);
      assert (Pattern(counter) + Pad2(n))[..|Pattern(counter)|] == Pattern(counter);
    }
  }

  /**
   * The number handed out for a counter occurs nowhere in the snapshot it was
   * computed from (no uniqueness is claimed against writers working from another
   * snapshot).
   */
  lemma NumberIsFresh(counter: string, column: seq<string>)
    requires counter != []
    ensures InvoiceNumber(counter, Some(column)).Ok? ==> InvoiceNumber(counter, Some(column)).value !in column
  {
    if InvoiceNumber(counter, Some(column)).Ok? {
      var inv := InvoiceNumber(counter, Some(column)).value;
      var n := NextSequence(counter, Some(column)).value;
      InvoiceNumberParsesBack(counter, Some(column));
      NextSequenceExceedsSuffixes(counter, Some(column));
      assert StartsWith(inv, counter) by {
        assert inv[..|counter|] == Pattern(counter)[..|counter|];
      }
      assert Suffix(counter, inv) == Some(n);
    }
  }

  /**
   * A ledger holding MAIN_INV01, MAIN_INV02 and OTHER_INV05: counter MAIN gets
   * sequence number 3 (the OTHER row does not start with MAIN and is ignored).
   */
  lemma ThirdMainSequence()
    ensures var column := [Pattern("MAIN") + Pad2(1), Pattern("MAIN") + Pad2(2), "OTHER_INV05"];
      NextSequence("MAIN", Some(column)) == Ok(3)
  {
    MainCandidates();
    MainParsed();
    assert Max([1, 2]) == 2 by { assert [1, 2][1..] == [2]; }
  }

  /** Of the three ledger numbers, the two rendered for MAIN start with MAIN. */
  lemma MainCandidates()
    ensures var a := Pattern("MAIN") + Pad2(1);
      var b := Pattern("MAIN") + Pad2(2);
      Candidates("MAIN", [a, b, "OTHER_INV05"]) == [a, b]
  {
    var a := Pattern("MAIN") + Pad2(1);
    var b := Pattern("MAIN") + Pad2(2);
    var o := "OTHER_INV05";
    var column := [a, b, o];
    assert StartsWith(a, "MAIN") by { assert a[..4] == "MAIN"; }
    assert StartsWith(b, "MAIN") by { assert b[..4] == "MAIN"; }
    assert !StartsWith(o, "MAIN") by { assert o[..4][0] != "MAIN"[0]; }
    assert column[1..] == [b, o] && column[1..][1..] == [o] && column[1..][1..][1..] == [];
    assert Candidates("MAIN", [o]) == [];
  }

  /** The two MAIN numbers parse to 1 and 2, in order. */
  lemma MainParsed()
    ensures Parsed("MAIN", [Pattern("MAIN") + Pad2(1), Pattern("MAIN") + Pad2(2)]) == [1, 2]
  {
    var a := Pattern("MAIN") + Pad2(1);
    var b := Pattern("MAIN") + Pad2(2);
    SuffixOfRendered("MAIN", 1);
    SuffixOfRendered("MAIN", 2);
    assert [a, b][1..] == [b] && [b][1..] == [];
    assert Parsed("MAIN", [b]) == [2];
  }

  /** The first three numbers rendered for counter MAIN. */
  lemma MainRendered()
    ensures Pattern("MAIN") + Pad2(1) == "MAIN_INV01"
    ensures Pattern("MAIN") + Pad2(2) == "MAIN_INV02"
    ensures Pattern("MAIN") + Pad2(3) == "MAIN_INV03"
  {
    assert Pad2(1) == "01" by { assert DigitChar(1) == '1'; }
    assert Pad2(2) == "02" by { assert DigitChar(2) == '2'; }
    assert Pad2(3) == "03" by { assert DigitChar(3) == '3'; }
  }

  /** The same ledger written out: the next invoice of counter MAIN is MAIN_INV03. */
  lemma ThirdMainInvoice()
    ensures InvoiceNumber("MAIN", Some(["MAIN_INV01", "MAIN_INV02", "OTHER_INV05"])) == Ok("MAIN_INV03")
  {
    MainRendered();
    ThirdMainSequence();
  }

  /** On an empty ledger counter A gets A_INV01. */
  lemma FirstInvoiceOfCounter()
    ensures InvoiceNumber("A", Some([])) == Ok("A_INV01")
  {
    assert NextSequence("A", Some([])) == Ok(1);
    assert Pad2(1) == "01" by {
      assert DigitChar(1) == '1';
    }
    assert Pattern("A") + Pad2(1) == "A_INV01";
    assert InvoiceNumber("A", Some([])) == Ok(Pattern("A") + Pad2(1));
  }
}
