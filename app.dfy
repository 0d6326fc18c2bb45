/** The application's record list (App.java): the delimited importer that fills it, the two
    bulk removals and the valid/invalid summary. The list is a field that the methods of class
    App reassign; what they compute is given by the functions of this module. */
module Ledger {
  import opened Numbers
  import opened Transactions
  import opened Delimited

  // ---------------------------------------------------------------------------------------
  // Importing delimited text

  /** A text file as the importer sees it: missing (FileReader throws), or its lines. */
  datatype TextFile = Missing | Lines(lines: seq<string>)

  /** addTransaction's mapping of the fields by position: 0 bill number, 1 item code,
      2 sale price, 3 quantity, 4 line total, 5 discount, 6 internal price, 7 checksum.
      None when a numeric field does not parse, or when there are fewer than eight fields
      (Java's index error, caught like the parse errors). */
  function ParseRow(parts: seq<string>, dt: DoubleText): Option<Transaction> {
    if |parts| < 8 then None
    else
      match (dt.parse(parts[2]), ParseInt(parts[3]), dt.parse(parts[4]), dt.parse(parts[5]),
             dt.parse(parts[6]))
      case (Some(salePrice), Some(quantity), Some(lineTotal), Some(discount), Some(internalPrice)) =>
        Some(Make(parts[0], parts[1], salePrice, quantity, lineTotal, discount, internalPrice,
                  parts[7], dt.render))
      case _ => None
  }

  /** The records one data line contributes: none unless it splits into exactly eight fields
      that all parse. */
  function LineRecords(line: string, delimiter: char, dt: DoubleText): (r: seq<Transaction>)
    ensures |r| <= 1
  {
    var parts := Split(line, delimiter);
    if |parts| == 8 then Added(ParseRow(parts, dt)) else []
  }

  /** What adding an optional record appends to the list. */
  function Added(r: Option<Transaction>): seq<Transaction> {
    match r
    case Some(t) => [t]
    case None => []
  }

  /** The concatenation of the results of f on the elements of xs, in order. */
  function FlatMap<A, B>(xs: seq<A>, f: A -> seq<B>): seq<B> {
    if |xs| == 0 then [] else FlatMap(xs[..|xs| - 1], f) + f(xs[|xs| - 1])
  }

  lemma {:induction false} FlatMapAppend<A, B>(a: seq<A>, b: seq<A>, f: A -> seq<B>)
    ensures FlatMap(a + b, f) == FlatMap(a, f) + FlatMap(b, f)
  {
    if |b| == 0 {
      assert a + b == a;
    } else {
      var init := b[..|b| - 1];
      FlatMapAppend(a, init, f);
      assert (a + b)[..|a + b| - 1] == a + init;
      assert (a + b)[|a + b| - 1] == b[|b| - 1];
    }
  }

  lemma {:induction false} FlatMapBound<A, B>(xs: seq<A>, f: A -> seq<B>)
    requires forall x :: |f(x)| <= 1
    ensures |FlatMap(xs, f)| <= |xs|
  {
    if |xs| > 0 {
      FlatMapBound(xs[..|xs| - 1], f);
    }
  }

  lemma AppendAssociative<T>(a: seq<T>, b: seq<T>, c: seq<T>)
    ensures (a + b) + c == a + (b + c)
  {
  }

  /** Every element of FlatMap(xs, f) satisfies P when every result of f does. */
  lemma {:induction false} FlatMapAll<A, B>(xs: seq<A>, f: A -> seq<B>, P: B -> bool)
    requires forall x, k :: 0 <= k < |f(x)| ==> P(f(x)[k])
    ensures forall k :: 0 <= k < |FlatMap(xs, f)| ==> P(FlatMap(xs, f)[k])
  {
    if |xs| > 0 {
      var init := xs[..|xs| - 1];
      FlatMapAll(init, f, P);
      var a, b := FlatMap(init, f), f(xs[|xs| - 1]);
      forall k | 0 <= k < |a + b|
        ensures P((a + b)[k])
      {
        if k < |a| {
          assert (a + b)[k] == a[k];
        } else {
          assert (a + b)[k] == b[k - |a|];
        }
      }
    }
  }

  /** LineRecords for a fixed delimiter and number format, as a function of the line. */
  function LineReader(delimiter: char, dt: DoubleText): string -> seq<Transaction> {
    (line: string) => LineRecords(line, delimiter, dt)
  }

  /** The records of a run of data lines, in line order. */
  function Rows(lines: seq<string>, delimiter: char, dt: DoubleText): (r: seq<Transaction>)
    ensures |r| <= |lines|
  {
    FlatMapBound(lines, LineReader(delimiter, dt));
    FlatMap(lines, LineReader(delimiter, dt))
  }

  /** What importDelimited appends for a file's lines: the first line is the header and is
      discarded; each later line adds its records. */
  function Imported(lines: seq<string>, delimiter: char, dt: DoubleText): seq<Transaction> {
    if |lines| == 0 then [] else Rows(lines[1..], delimiter, dt)
  }

  // ---------------------------------------------------------------------------------------
  // Removing and counting

  /** Collection.removeIf: the elements that do not satisfy p, in their order. */
  function RemoveIf<T>(ts: seq<T>, p: T -> bool): (r: seq<T>)
    ensures |r| <= |ts|
    ensures forall k :: 0 <= k < |r| ==> !p(r[k]) && r[k] in ts
  {
    if |ts| == 0 then []
    else RemoveIf(ts[..|ts| - 1], p) + (if p(ts[|ts| - 1]) then [] else [ts[|ts| - 1]])
  }

  /** The predicate of "Delete Invalid". */
  predicate IsInvalid(t: Transaction) {
    !t.isValid
  }

  /** The predicate of "Delete Zero-Profit": exact equality with zero. */
  predicate IsZeroProfit(t: Transaction) {
    t.profit == 0.0
  }

  /** The number of valid records. */
  function CountValid(ts: seq<Transaction>): (n: nat)
    ensures n <= |ts|
  {
    if |ts| == 0 then 0
    else CountValid(ts[..|ts| - 1]) + (if ts[|ts| - 1].isValid then 1 else 0)
  }

  datatype Summary = Summary(total: nat, valid: nat, invalid: nat)

  /** The three numbers updateSummary shows. */
  function Summarize(ts: seq<Transaction>): (s: Summary)
    ensures s.total == |ts| && s.valid + s.invalid == s.total
  {
    var valid := CountValid(ts);
    Summary(|ts|, valid, |ts| - valid)
  }

  // ---------------------------------------------------------------------------------------
  // The list and the operations on it

  class App {
    /** The records on display, in import order. */
    var transactions: seq<Transaction>

    constructor ()
      ensures transactions == []
    {
      transactions := [];
    }

    /** transactions.clear(), done by the import button before it imports. */
    method Clear()
      modifies this
      ensures transactions == []
    {
      transactions := [];
    }

    /** addTransaction: append the record the fields describe, or nothing when they do not
        parse. */
    method AddTransaction(parts: seq<string>, dt: DoubleText)
      modifies this
      ensures transactions == old(transactions) + Added(ParseRow(parts, dt))
    {
      if |parts| < 8 {
        return;
      }
      var salePrice := dt.parse(parts[2]);
      var quantity := ParseInt(parts[3]);
      var lineTotal := dt.parse(parts[4]);
      var discount := dt.parse(parts[5]);
      var internalPrice := dt.parse(parts[6]);
      if salePrice.None? || quantity.None? || lineTotal.None? || discount.None? || internalPrice.None? {
        return;
      }
      var t := NewTransaction(parts[0], parts[1], salePrice.value, quantity.value, lineTotal.value,
                              discount.value, internalPrice.value, parts[7], dt.render);
      transactions := transactions + [t];
    }

    /** The body of importDelimited's loop for one data line: split it and hand an eight-field
        row to addTransaction. */
    method ImportLine(line: string, delimiter: char, dt: DoubleText)
      modifies this
      ensures transactions == old(transactions) + LineRecords(line, delimiter, dt)
    {
      var parts := Split(line, delimiter);
      if |parts| == 8 {
        AddTransaction(parts, dt);
      }
    }

    /** importDelimited: skip the header line, then add the records of every line that splits
        into exactly eight fields. A missing file throws before anything is read. */
    method ImportDelimited(file: TextFile, delimiter: char, dt: DoubleText) returns (ok: bool)
      modifies this
      ensures ok == file.Lines?
      ensures !ok ==> transactions == old(transactions)
      ensures ok ==> transactions == old(transactions) + Imported(file.lines, delimiter, dt)
    {
      if file.Missing? {
        return false;
      }
      ok := true;
      if |file.lines| > 0 {
        ImportDataLines(file.lines[1..], delimiter, dt);
      }
    }

    method ImportDataLines(lines: seq<string>, delimiter: char, dt: DoubleText)
      modifies this
      ensures transactions == old(transactions) + Rows(lines, delimiter, dt)
    {
      ghost var start := transactions;
      for i := 0 to |lines|
        invariant transactions == start + Rows(lines[..i], delimiter, dt)
      {
        ImportLine(lines[i], delimiter, dt);
        RowsSnoc(lines[..i], lines[i], delimiter, dt);
        AppendAssociative(start, Rows(lines[..i], delimiter, dt), LineRecords(lines[i], delimiter, dt));
        assert lines[..i + 1] == lines[..i] + [lines[i]];
      }
      assert lines[..|lines|] == lines;
    }

    /** The "Delete Invalid" button: transactions.removeIf(t -> !t.getIsValid()). */
    method DeleteInvalid()
      modifies this
      ensures transactions == RemoveIf(old(transactions), IsInvalid)
      ensures forall k :: 0 <= k < |transactions| ==> transactions[k].isValid
    {
      transactions := RemoveIf(transactions, IsInvalid);
    }

    /** The "Delete Zero-Profit" button: transactions.removeIf(t -> t.getProfit() == 0). */
    method DeleteZeroProfit()
      modifies this
      ensures transactions == RemoveIf(old(transactions), IsZeroProfit)
      ensures forall k :: 0 <= k < |transactions| ==> transactions[k].profit != 0.0
    {
      transactions := RemoveIf(transactions, IsZeroProfit);
    }

    /** The counts of updateSummary. */
    function CurrentSummary(): (s: Summary)
      reads this
      ensures s.total == |transactions| && s.valid + s.invalid == s.total
    {
      Summarize(transactions)
    }
  }

  // ---------------------------------------------------------------------------------------
  // Properties of the importer

  /** The records of consecutive runs of lines are those of the runs one after the other. */
  lemma RowsAppend(a: seq<string>, b: seq<string>, delimiter: char, dt: DoubleText)
    ensures Rows(a + b, delimiter, dt) == Rows(a, delimiter, dt) + Rows(b, delimiter, dt)
  {
    FlatMapAppend(a, b, LineReader(delimiter, dt));
  }

  /** One more line adds its own records at the end. */
  lemma RowsSnoc(lines: seq<string>, line: string, delimiter: char, dt: DoubleText)
    ensures Rows(lines + [line], delimiter, dt) == Rows(lines, delimiter, dt) + LineRecords(line, delimiter, dt)
  {
    assert (lines + [line])[..|lines|] == lines;
  }

  /** The records of line k of the file, for k >= 1, come after those of lines 1 to k - 1 and
      before those of the lines after it: rows are appended in line order. */
  lemma ImportedInLineOrder(lines: seq<string>, k: nat, delimiter: char, dt: DoubleText)
    requires 1 <= k < |lines|
    ensures Imported(lines, delimiter, dt)
         == Rows(lines[1..k], delimiter, dt) + LineRecords(lines[k], delimiter, dt)
            + Rows(lines[k + 1..], delimiter, dt)
  {
    assert lines[1..] == lines[1..k] + [lines[k]] + lines[k + 1..];
    RowsAppend(lines[1..k] + [lines[k]], lines[k + 1..], delimiter, dt);
    RowsSnoc(lines[1..k], lines[k], delimiter, dt);
  }

  /** At most one record per line after the header; an empty file and a header alone give none. */
  lemma ImportedBound(lines: seq<string>, delimiter: char, dt: DoubleText)
    ensures lines == [] ==> Imported(lines, delimiter, dt) == []
    ensures lines != [] ==> |Imported(lines, delimiter, dt)| <= |lines| - 1
    ensures |lines| == 1 ==> Imported(lines, delimiter, dt) == []
  {
  }

  /** The first line never produces a record: whatever it holds, the result is the same. */
  lemma HeaderIgnored(h1: string, h2: string, rest: seq<string>, delimiter: char, dt: DoubleText)
    ensures Imported([h1] + rest, delimiter, dt) == Imported([h2] + rest, delimiter, dt)
  {
    assert ([h1] + rest)[1..] == rest;
    assert ([h2] + rest)[1..] == rest;
  }

  /** A line that does not split into exactly eight fields contributes nothing. */
  lemma WrongFieldCountSkipped(line: string, delimiter: char, dt: DoubleText)
    requires |Split(line, delimiter)| != 8
    ensures LineRecords(line, delimiter, dt) == []
  {
  }

  /** An eight-field line contributes a record exactly when its five numeric fields parse, and
      that record holds the fields in the order bill number, item code, sale price, quantity,
      line total, discount, internal price, checksum. */
  lemma EightFieldLine(line: string, delimiter: char, dt: DoubleText)
    requires |Split(line, delimiter)| == 8
    ensures var p := Split(line, delimiter);
      LineRecords(line, delimiter, dt) != [] <==>
        && dt.parse(p[2]).Some? && ParseInt(p[3]).Some? && dt.parse(p[4]).Some?
        && dt.parse(p[5]).Some? && dt.parse(p[6]).Some?
    ensures var p := Split(line, delimiter);
      LineRecords(line, delimiter, dt) != [] ==>
        var t := LineRecords(line, delimiter, dt)[0];
        && t.billNumber == p[0] && t.itemCode == p[1]
        && Some(t.salePrice) == dt.parse(p[2]) && Some(t.quantity) == ParseInt(p[3])
        && Some(t.lineTotal) == dt.parse(p[4]) && Some(t.discount) == dt.parse(p[5])
        && Some(t.internalPrice) == dt.parse(p[6]) && t.checksum == p[7]
        && WellFormed(t, dt.render)
  {
  }

  /** Every imported record carries the validity and profit its own fields determine. */
  lemma RowsWellFormed(lines: seq<string>, delimiter: char, dt: DoubleText)
    ensures forall k :: 0 <= k < |Rows(lines, delimiter, dt)| ==> WellFormed(Rows(lines, delimiter, dt)[k], dt.render)
  {
    var f := LineReader(delimiter, dt);
    forall line: string {
      LineRecordsWellFormed(line, delimiter, dt);
    }
    FlatMapAll(lines, f, (t: Transaction) => WellFormed(t, dt.render));
  }

  /** The record a line contributes, if any, was built by the constructor. */
  lemma LineRecordsWellFormed(line: string, delimiter: char, dt: DoubleText)
    ensures forall k :: 0 <= k < |LineRecords(line, delimiter, dt)| ==>
      WellFormed(LineRecords(line, delimiter, dt)[k], dt.render)
  {
  }

  /** A data line written as eight delimiter-free fields, the last one not empty, whose
      numeric fields parse, contributes exactly the record built from those fields. */
  lemma JoinedLineRecord(p: seq<string>, delimiter: char, dt: DoubleText)
    requires |p| == 8 && p[7] != ""
    requires forall k :: 0 <= k < 8 ==> delimiter !in p[k]
    requires dt.parse(p[2]).Some? && ParseInt(p[3]).Some? && dt.parse(p[4]).Some?
    requires dt.parse(p[5]).Some? && dt.parse(p[6]).Some?
    ensures LineRecords(Join(p, delimiter), delimiter, dt)
         == [Make(p[0], p[1], dt.parse(p[2]).value, ParseInt(p[3]).value, dt.parse(p[4]).value,
                  dt.parse(p[5]).value, dt.parse(p[6]).value, p[7], dt.render)]
  {
    SplitJoin(p, delimiter);
  }

  /** A header and two data lines: the records of the first line, then those of the second. */
  lemma ImportedTwoLines(header: string, l1: string, l2: string, delimiter: char, dt: DoubleText)
    ensures Imported([header, l1, l2], delimiter, dt)
         == LineRecords(l1, delimiter, dt) + LineRecords(l2, delimiter, dt)
  {
    var r1, r2 := LineRecords(l1, delimiter, dt), LineRecords(l2, delimiter, dt);
    var e: seq<string> := [];
    assert e + [l1] == [l1];
    RowsSnoc(e, l1, delimiter, dt);
    assert Rows([l1], delimiter, dt) == [] + r1 == r1;
    assert [header, l1, l2][1..] == [l1] + [l2];
    RowsSnoc([l1], l2, delimiter, dt);
  }

  /** The first data line of the sample CSV file, B001,ITEM1,100.0,2,200.0,10.0,80.0,CHECK1. */
  lemma SampleCsvFirstLine(dt: DoubleText)
    requires dt.parse("100.0") == Some(100.0) && dt.parse("200.0") == Some(200.0)
    requires dt.parse("10.0") == Some(10.0) && dt.parse("80.0") == Some(80.0)
    ensures LineRecords(Join(["B001", "ITEM1", "100.0", "2", "200.0", "10.0", "80.0", "CHECK1"], ','), ',', dt)
         == [Make("B001", "ITEM1", 100.0, 2, 200.0, 10.0, 80.0, "CHECK1", dt.render)]
  {
    assert ParseInt("2") == Some(2);
    JoinedLineRecord(["B001", "ITEM1", "100.0", "2", "200.0", "10.0", "80.0", "CHECK1"], ',', dt);
  }

  /** The second data line of the sample CSV file, B002,ITEM2,50.0,3,150.0,5.0,40.0,CHECK2. */
  lemma SampleCsvSecondLine(dt: DoubleText)
    requires dt.parse("50.0") == Some(50.0) && dt.parse("150.0") == Some(150.0)
    requires dt.parse("5.0") == Some(5.0) && dt.parse("40.0") == Some(40.0)
    ensures LineRecords(Join(["B002", "ITEM2", "50.0", "3", "150.0", "5.0", "40.0", "CHECK2"], ','), ',', dt)
         == [Make("B002", "ITEM2", 50.0, 3, 150.0, 5.0, 40.0, "CHECK2", dt.render)]
  {
    assert ParseInt("3") == Some(3);
    JoinedLineRecord(["B002", "ITEM2", "50.0", "3", "150.0", "5.0", "40.0", "CHECK2"], ',', dt);
  }

  /** The sample CSV file: a header and the two data lines above give two records in file
      order with the fields of their lines; neither is valid, because "CHECK1" and "CHECK2"
      are not numbers. */
  lemma SampleCsv(header: string, dt: DoubleText)
    requires dt.parse("100.0") == Some(100.0) && dt.parse("200.0") == Some(200.0)
    requires dt.parse("10.0") == Some(10.0) && dt.parse("80.0") == Some(80.0)
    requires dt.parse("50.0") == Some(50.0) && dt.parse("150.0") == Some(150.0)
    requires dt.parse("5.0") == Some(5.0) && dt.parse("40.0") == Some(40.0)
    ensures var r := Imported([header,
                               Join(["B001", "ITEM1", "100.0", "2", "200.0", "10.0", "80.0", "CHECK1"], ','),
                               Join(["B002", "ITEM2", "50.0", "3", "150.0", "5.0", "40.0", "CHECK2"], ',')],
                              ',', dt);
      && |r| == 2
      && r[0].billNumber == "B001" && r[0].itemCode == "ITEM1" && r[0].salePrice == 100.0
      && r[0].quantity == 2 && r[0].lineTotal == 200.0 && r[0].discount == 10.0
      && r[0].internalPrice == 80.0 && r[0].checksum == "CHECK1"
      && r[1].billNumber == "B002" && r[1].quantity == 3 && r[1].checksum == "CHECK2"
      && !r[0].isValid && !r[1].isValid
  {
    var l1 := Join(["B001", "ITEM1", "100.0", "2", "200.0", "10.0", "80.0", "CHECK1"], ',');
    var l2 := Join(["B002", "ITEM2", "50.0", "3", "150.0", "5.0", "40.0", "CHECK2"], ',');
    SampleCsvFirstLine(dt);
    SampleCsvSecondLine(dt);
    Check1NeverValid("ITEM1", 100.0, 2, 10.0, 80.0, dt.render);
    assert !IsDigit("CHECK2"[0]);
    NonNumericChecksumInvalid("ITEM2", 50.0, 3, 5.0, 40.0, "CHECK2", dt.render);
    ImportedTwoLines(header, l1, l2, ',', dt);
  }

  /** The first data line of the sample TSV file, B003 ITEM3 75.0 4 300.0 15.0 60.0 CHECK3. */
  lemma SampleTsvFirstLine(dt: DoubleText)
    requires dt.parse("75.0") == Some(75.0) && dt.parse("300.0") == Some(300.0)
    requires dt.parse("15.0") == Some(15.0) && dt.parse("60.0") == Some(60.0)
    ensures LineRecords(Join(["B003", "ITEM3", "75.0", "4", "300.0", "15.0", "60.0", "CHECK3"], '\t'), '\t', dt)
         == [Make("B003", "ITEM3", 75.0, 4, 300.0, 15.0, 60.0, "CHECK3", dt.render)]
  {
    assert ParseInt("4") == Some(4);
    JoinedLineRecord(["B003", "ITEM3", "75.0", "4", "300.0", "15.0", "60.0", "CHECK3"], '\t', dt);
  }

  /** The second data line of the sample TSV file, B004 ITEM4 120.0 1 120.0 20.0 90.0 CHECK4. */
  lemma SampleTsvSecondLine(dt: DoubleText)
    requires dt.parse("120.0") == Some(120.0) && dt.parse("20.0") == Some(20.0)
    requires dt.parse("90.0") == Some(90.0)
    ensures LineRecords(Join(["B004", "ITEM4", "120.0", "1", "120.0", "20.0", "90.0", "CHECK4"], '\t'), '\t', dt)
         == [Make("B004", "ITEM4", 120.0, 1, 120.0, 20.0, 90.0, "CHECK4", dt.render)]
  {
    assert ParseInt("1") == Some(1);
    JoinedLineRecord(["B004", "ITEM4", "120.0", "1", "120.0", "20.0", "90.0", "CHECK4"], '\t', dt);
  }

  /** The sample TSV file: a header and the two tab-separated lines above give two records,
      the second one holding the fields of the last line. */
  lemma SampleTsv(header: string, dt: DoubleText)
    requires dt.parse("75.0") == Some(75.0) && dt.parse("300.0") == Some(300.0)
    requires dt.parse("15.0") == Some(15.0) && dt.parse("60.0") == Some(60.0)
    requires dt.parse("120.0") == Some(120.0) && dt.parse("20.0") == Some(20.0)
    requires dt.parse("90.0") == Some(90.0)
    ensures var r := Imported([header,
                               Join(["B003", "ITEM3", "75.0", "4", "300.0", "15.0", "60.0", "CHECK3"], '\t'),
                               Join(["B004", "ITEM4", "120.0", "1", "120.0", "20.0", "90.0", "CHECK4"], '\t')],
                              '\t', dt);
      && |r| == 2
      && r[1].billNumber == "B004" && r[1].itemCode == "ITEM4" && r[1].salePrice == 120.0
      && r[1].quantity == 1 && r[1].lineTotal == 120.0 && r[1].discount == 20.0
      && r[1].internalPrice == 90.0 && r[1].checksum == "CHECK4"
  {
    var l1 := Join(["B003", "ITEM3", "75.0", "4", "300.0", "15.0", "60.0", "CHECK3"], '\t');
    var l2 := Join(["B004", "ITEM4", "120.0", "1", "120.0", "20.0", "90.0", "CHECK4"], '\t');
    SampleTsvFirstLine(dt);
    SampleTsvSecondLine(dt);
    ImportedTwoLines(header, l1, l2, '\t', dt);
  }

  /** The sample file with too few columns: its one data row B005,ITEM5,200.0 has three
      fields and is skipped. */
  lemma ShortRowFile(header: string, dt: DoubleText)
    ensures Imported([header, Join(["B005", "ITEM5", "200.0"], ',')], ',', dt) == []
  {
    var l := Join(["B005", "ITEM5", "200.0"], ',');
    SplitJoin(["B005", "ITEM5", "200.0"], ',');
    var e: seq<string> := [];
    assert e + [l] == [l];
    RowsSnoc(e, l, ',', dt);
    assert [header, l][1..] == [l];
  }

  // ---------------------------------------------------------------------------------------
  // Properties of the removals and the summary

  /** The positions of the elements that do not satisfy p, in increasing order. */
  function KeptIndices<T>(ts: seq<T>, p: T -> bool): (idx: seq<nat>)
    ensures forall k :: 0 <= k < |idx| ==> idx[k] < |ts| && !p(ts[idx[k]])
    ensures forall k, l :: 0 <= k < l < |idx| ==> idx[k] < idx[l]
    ensures forall i :: 0 <= i < |ts| && !p(ts[i]) ==> i in idx
  {
    if |ts| == 0 then []
    else
      var n := |ts| - 1;
      var init := KeptIndices(ts[..n], p);
      assert forall i :: 0 <= i < n ==> ts[..n][i] == ts[i];
      init + (if p(ts[n]) then [] else [n])
  }

  /** removeIf keeps exactly the elements that do not satisfy p, in their original relative
      order: the k-th survivor is the element at the k-th such position. */
  lemma {:induction false} RemoveIfSelects<T>(ts: seq<T>, p: T -> bool)
    ensures |RemoveIf(ts, p)| == |KeptIndices(ts, p)|
    ensures forall k :: 0 <= k < |RemoveIf(ts, p)| ==> RemoveIf(ts, p)[k] == ts[KeptIndices(ts, p)[k]]
  {
    if |ts| > 0 {
      var n := |ts| - 1;
      var init := ts[..n];
      RemoveIfSelects(init, p);
      var r0, i0 := RemoveIf(init, p), KeptIndices(init, p);
      assert RemoveIf(ts, p) == r0 + (if p(ts[n]) then [] else [ts[n]]);
      assert KeptIndices(ts, p) == i0 + (if p(ts[n]) then [] else [n]);
      forall k | 0 <= k < |r0|
        ensures RemoveIf(ts, p)[k] == ts[KeptIndices(ts, p)[k]]
      {
        assert init[i0[k]] == ts[i0[k]];
      }
    }
  }

  /** Removing from a list where nothing satisfies p changes nothing; so removing twice is
      removing once. */
  lemma {:induction false} RemoveIfNothingToRemove<T>(ts: seq<T>, p: T -> bool)
    requires forall k :: 0 <= k < |ts| ==> !p(ts[k])
    ensures RemoveIf(ts, p) == ts
  {
    if |ts| > 0 {
      RemoveIfNothingToRemove(ts[..|ts| - 1], p);
    }
  }

  lemma RemoveIfIdempotent<T>(ts: seq<T>, p: T -> bool)
    ensures RemoveIf(RemoveIf(ts, p), p) == RemoveIf(ts, p)
  {
    RemoveIfNothingToRemove(RemoveIf(ts, p), p);
  }

  /** The valid count is the size of the list once the invalid records are removed, and the
      list is all valid exactly when the valid count is its size. */
  lemma {:induction false} CountValidIsSurvivors(ts: seq<Transaction>)
    ensures CountValid(ts) == |RemoveIf(ts, IsInvalid)|
    ensures CountValid(ts) == |ts| <==> forall k :: 0 <= k < |ts| ==> ts[k].isValid
  {
    if |ts| > 0 {
      var n := |ts| - 1;
      CountValidIsSurvivors(ts[..n]);
      assert forall k :: 0 <= k < n ==> ts[..n][k] == ts[k];
    }
  }

  /** Right after "Delete Invalid" the summary shows no invalid record, and the total is the
      valid count from before. */
  lemma SummaryAfterDeleteInvalid(ts: seq<Transaction>)
    ensures Summarize(RemoveIf(ts, IsInvalid)).invalid == 0
    ensures Summarize(RemoveIf(ts, IsInvalid)).total == Summarize(ts).valid
  {
    CountValidIsSurvivors(ts);
    CountValidIsSurvivors(RemoveIf(ts, IsInvalid));
  }
}
