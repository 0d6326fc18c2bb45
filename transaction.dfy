/** One tax-transaction record (Transaction.java): eight stored fields and two derived ones,
    the validity flag and the profit, computed once when the record is built. The record is
    never changed after construction, so it is a value here. */
module Transactions {
  import opened Numbers

  datatype Transaction = Transaction(
    billNumber: string,
    itemCode: string,
    salePrice: real,
    quantity: Int32,
    lineTotal: real,
    discount: real,
    internalPrice: real,
    checksum: string,
    isValid: bool,
    profit: real)

  // ---------------------------------------------------------------------------------------
  // The checksum: a count of character classes over the concatenated fields

  /** The class a character falls in by the else-if chain of calculateChecksum (ASCII only):
      upper case, else lower case, else a digit or '.', else nothing. */
  datatype CharClass = Upper | Lower | DigitOrDot | Other

  function Classify(c: char): CharClass {
    if 'A' <= c <= 'Z' then Upper
    else if 'a' <= c <= 'z' then Lower
    else if '0' <= c <= '9' || c == '.' then DigitOrDot
    else Other
  }

  /** How many characters of s fall in class k. */
  function CountOf(s: string, k: CharClass): (n: nat)
    ensures n <= |s|
  {
    if |s| == 0 then 0
    else CountOf(s[..|s| - 1], k) + (if Classify(s[|s| - 1]) == k then 1 else 0)
  }

  /** upper + lower + digit: the characters that the else-if chain counts. */
  function Tally(s: string): nat {
    CountOf(s, Upper) + CountOf(s, Lower) + CountOf(s, DigitOrDot)
  }

  /** The text calculateChecksum scans: the item code followed by the internal price, the
      discount, the sale price and the quantity, each in its Java text form, no separators. */
  function ChecksumLine(itemCode: string, internalPrice: real, discount: real, salePrice: real,
                        quantity: Int32, render: real -> string): string
  {
    itemCode + render(internalPrice) + render(discount) + render(salePrice) + IntToString(quantity)
  }

  /** The value calculateChecksum returns: the decimal text of the tally of the line. */
  function Checksum(itemCode: string, internalPrice: real, discount: real, salePrice: real,
                    quantity: Int32, render: real -> string): (s: string)
    ensures |s| > 0 && AllDigits(s)
  {
    NatToString(Tally(ChecksumLine(itemCode, internalPrice, discount, salePrice, quantity, render)))
  }

  /** calculateChecksum: one pass over the line with three counters. */
  method CalculateChecksum(itemCode: string, internalPrice: real, discount: real, salePrice: real,
                           quantity: Int32, render: real -> string) returns (s: string)
    ensures s == Checksum(itemCode, internalPrice, discount, salePrice, quantity, render)
  {
    var line := itemCode + render(internalPrice) + render(discount) + render(salePrice)
                + IntToString(quantity);
    var upper, lower, digit := 0, 0, 0;
    for i := 0 to |line|
      invariant upper == CountOf(line[..i], Upper)
      invariant lower == CountOf(line[..i], Lower)
      invariant digit == CountOf(line[..i], DigitOrDot)
    {
      var c := line[i];
      assert line[..i + 1][..i] == line[..i];
      if 'A' <= c <= 'Z' {
        upper := upper + 1;
      } else if 'a' <= c <= 'z' {
        lower := lower + 1;
      } else if '0' <= c <= '9' || c == '.' {
        digit := digit + 1;
      }
    }
    assert line[..|line|] == line;
    s := NatToString(upper + lower + digit);
  }

  /** Every character falls in exactly one class, so the counted ones and the others make up
      the whole line. */
  lemma {:induction false} TallyPartition(s: string)
    ensures Tally(s) + CountOf(s, Other) == |s|
  {
    if |s| > 0 {
      TallyPartition(s[..|s| - 1]);
    }
  }

  /** The checksum value is never more than the length of the line it is computed from. */
  lemma TallyBound(s: string)
    ensures Tally(s) <= |s|
  {
    TallyPartition(s);
  }

  lemma {:induction false} CountOfAppend(a: string, b: string, k: CharClass)
    ensures CountOf(a + b, k) == CountOf(a, k) + CountOf(b, k)
  {
    if |b| > 0 {
      assert (a + b)[..|a + b| - 1] == a + b[..|b| - 1];
      CountOfAppend(a, b[..|b| - 1], k);
    } else {
      assert a + b == a;
    }
  }

  /** The tally of a concatenation is the sum of the tallies of its parts. */
  lemma TallyAppend(a: string, b: string)
    ensures Tally(a + b) == Tally(a) + Tally(b)
  {
    CountOfAppend(a, b, Upper);
    CountOfAppend(a, b, Lower);
    CountOfAppend(a, b, DigitOrDot);
  }

  /** A character outside the three classes ('_', '-', a space, ...) adds nothing to the count,
      wherever it stands in the line. */
  lemma OtherCharAddsNothing(a: string, c: char, b: string)
    requires Classify(c) == Other
    ensures Tally(a + [c] + b) == Tally(a + b)
  {
    TallyAppend(a + [c], b);
    TallyAppend(a, [c]);
    TallyAppend(a, b);
    assert [c][..0] == [];
  }

  // ---------------------------------------------------------------------------------------
  // The validation rule and the profit formula

  /** A character the pattern [^a-zA-Z0-9_] does not match. */
  predicate IsWordChar(c: char) {
    'a' <= c <= 'z' || 'A' <= c <= 'Z' || '0' <= c <= '9' || c == '_'
  }

  /** hasSpecialChars: Matcher.find for [^a-zA-Z0-9_], a scan of the item code from the left
      for a character outside a-z, A-Z, 0-9 and '_'. */
  predicate HasSpecialChars(itemCode: string) {
    |itemCode| > 0 && (!IsWordChar(itemCode[0]) || HasSpecialChars(itemCode[1..]))
  }

  /** The scan finds a special character exactly when the item code holds one. */
  lemma {:induction false} HasSpecialCharsIffSome(itemCode: string)
    ensures HasSpecialChars(itemCode) <==> exists i :: 0 <= i < |itemCode| && !IsWordChar(itemCode[i])
  {
    if |itemCode| > 0 {
      var rest := itemCode[1..];
      HasSpecialCharsIffSome(rest);
      if exists i :: 0 <= i < |itemCode| && !IsWordChar(itemCode[i]) {
        var i :| 0 <= i < |itemCode| && !IsWordChar(itemCode[i]);
        if i > 0 {
          assert rest[i - 1] == itemCode[i];
        }
      }
      if HasSpecialChars(rest) {
        var j :| 0 <= j < |rest| && !IsWordChar(rest[j]);
        assert itemCode[j + 1] == rest[j];
      }
    }
  }

  /** validateChecksum: the supplied checksum equals the computed one, the item code has no
      special characters and the internal price is not negative. */
  predicate ValidateChecksum(itemCode: string, salePrice: real, quantity: Int32, discount: real,
                             internalPrice: real, checksum: string, render: real -> string)
  {
    && Checksum(itemCode, internalPrice, discount, salePrice, quantity, render) == checksum
    && !HasSpecialChars(itemCode)
    && internalPrice >= 0.0
  }

  /** calculateProfit, in exact arithmetic. */
  function CalculateProfit(salePrice: real, quantity: Int32, discount: real, internalPrice: real): real {
    (internalPrice * quantity as real) - ((salePrice * quantity as real) - discount)
  }

  /** The record the constructor builds from its eight arguments. */
  function Make(billNumber: string, itemCode: string, salePrice: real, quantity: Int32,
                lineTotal: real, discount: real, internalPrice: real, checksum: string,
                render: real -> string): Transaction
  {
    Transaction(billNumber, itemCode, salePrice, quantity, lineTotal, discount, internalPrice, checksum,
                ValidateChecksum(itemCode, salePrice, quantity, discount, internalPrice, checksum, render),
                CalculateProfit(salePrice, quantity, discount, internalPrice))
  }

  /** A record whose derived fields are those the constructor computes from its stored ones. */
  predicate WellFormed(t: Transaction, render: real -> string) {
    && t.isValid == ValidateChecksum(t.itemCode, t.salePrice, t.quantity, t.discount,
                                     t.internalPrice, t.checksum, render)
    && t.profit == CalculateProfit(t.salePrice, t.quantity, t.discount, t.internalPrice)
  }

  /** The Transaction constructor: it stores the eight arguments, then runs the validation
      (which calls calculateChecksum) and the profit formula once. */
  method NewTransaction(billNumber: string, itemCode: string, salePrice: real, quantity: Int32,
                        lineTotal: real, discount: real, internalPrice: real, checksum: string,
                        render: real -> string) returns (t: Transaction)
    ensures t == Make(billNumber, itemCode, salePrice, quantity, lineTotal, discount,
                      internalPrice, checksum, render)
    ensures WellFormed(t, render)
  {
    var calculated := CalculateChecksum(itemCode, internalPrice, discount, salePrice, quantity, render);
    var isValid := calculated == checksum && !HasSpecialChars(itemCode) && internalPrice >= 0.0;
    var profit := CalculateProfit(salePrice, quantity, discount, internalPrice);
    t := Transaction(billNumber, itemCode, salePrice, quantity, lineTotal, discount, internalPrice,
                     checksum, isValid, profit);
  }

  // ---------------------------------------------------------------------------------------
  // Properties of the record

  /** The getters return the constructor's arguments, and the derived fields are consistent. */
  lemma MakeStores(billNumber: string, itemCode: string, salePrice: real, quantity: Int32,
                   lineTotal: real, discount: real, internalPrice: real, checksum: string,
                   render: real -> string)
    ensures var t := Make(billNumber, itemCode, salePrice, quantity, lineTotal, discount,
                          internalPrice, checksum, render);
      && t.billNumber == billNumber && t.itemCode == itemCode && t.salePrice == salePrice
      && t.quantity == quantity && t.lineTotal == lineTotal && t.discount == discount
      && t.internalPrice == internalPrice && t.checksum == checksum
      && WellFormed(t, render)
  {
  }

  /** The computed checksum ignores the bill number, the line total and the supplied checksum:
      two records that agree on the other five fields compute the same value. */
  lemma ChecksumIgnoresOtherFields(t1: Transaction, t2: Transaction, render: real -> string)
    requires t1.itemCode == t2.itemCode && t1.internalPrice == t2.internalPrice
    requires t1.discount == t2.discount && t1.salePrice == t2.salePrice
    requires t1.quantity == t2.quantity
    ensures Checksum(t1.itemCode, t1.internalPrice, t1.discount, t1.salePrice, t1.quantity, render)
         == Checksum(t2.itemCode, t2.internalPrice, t2.discount, t2.salePrice, t2.quantity, render)
  {
  }

  /** A supplied checksum that is empty or holds a non-digit (such as "CHECK1") never matches
      the computed one, whatever the other fields are. */
  lemma NonNumericChecksumInvalid(itemCode: string, salePrice: real, quantity: Int32, discount: real,
                                  internalPrice: real, checksum: string, render: real -> string)
    requires |checksum| == 0 || exists i :: 0 <= i < |checksum| && !IsDigit(checksum[i])
    ensures !ValidateChecksum(itemCode, salePrice, quantity, discount, internalPrice, checksum, render)
  {
  }

  /** The supplied checksum "CHECK1" of the sample data never validates. */
  lemma Check1NeverValid(itemCode: string, salePrice: real, quantity: Int32, discount: real,
                         internalPrice: real, render: real -> string)
    ensures !ValidateChecksum(itemCode, salePrice, quantity, discount, internalPrice, "CHECK1", render)
  {
    assert !IsDigit("CHECK1"[0]);
    NonNumericChecksumInvalid(itemCode, salePrice, quantity, discount, internalPrice, "CHECK1", render);
  }

  /** Each of the three conditions can only make a record invalid: a negative internal price or
      a special character in the item code fails validation whatever the checksum. */
  lemma FailureConditions(itemCode: string, salePrice: real, quantity: Int32, discount: real,
                          internalPrice: real, checksum: string, render: real -> string)
    ensures internalPrice < 0.0 ==>
      !ValidateChecksum(itemCode, salePrice, quantity, discount, internalPrice, checksum, render)
    ensures HasSpecialChars(itemCode) ==>
      !ValidateChecksum(itemCode, salePrice, quantity, discount, internalPrice, checksum, render)
    ensures checksum != Checksum(itemCode, internalPrice, discount, salePrice, quantity, render) ==>
      !ValidateChecksum(itemCode, salePrice, quantity, discount, internalPrice, checksum, render)
  {
  }

  /** The validation succeeds exactly when the supplied checksum is the decimal text of the
      count of upper-case, lower-case and digit-or-'.' characters of the line, the item code
      is made of word characters only and the internal price is not negative. */
  lemma ValidateChecksumCharacterized(itemCode: string, salePrice: real, quantity: Int32, discount: real,
                                      internalPrice: real, checksum: string, render: real -> string)
    ensures ValidateChecksum(itemCode, salePrice, quantity, discount, internalPrice, checksum, render)
      <==> && AllDigits(checksum) && |checksum| > 0
           && DigitsValue(checksum)
              == Tally(ChecksumLine(itemCode, internalPrice, discount, salePrice, quantity, render))
           && (checksum[0] == '0' ==> |checksum| == 1)
           && (forall i :: 0 <= i < |itemCode| ==> IsWordChar(itemCode[i]))
           && internalPrice >= 0.0
  {
    var n := Tally(ChecksumLine(itemCode, internalPrice, discount, salePrice, quantity, render));
    NatToStringRoundTrip(n);
    HasSpecialCharsIffSome(itemCode);
    if AllDigits(checksum) && |checksum| > 0 && DigitsValue(checksum) == n
       && (checksum[0] == '0' ==> |checksum| == 1) {
      CanonicalDigits(checksum);
    }
  }

  /** A run of digits without a leading zero (or the single digit "0") is the decimal text of
      its own value. */
  lemma {:induction false} CanonicalDigits(s: string)
    requires |s| > 0 && AllDigits(s) && (s[0] == '0' ==> |s| == 1)
    ensures NatToString(DigitsValue(s)) == s
  {
    if |s| > 1 {
      var init := s[..|s| - 1];
      assert AllDigits(init) && init[0] == s[0];
      CanonicalDigits(init);
      LeadingDigitPositive(init);
      var v := DigitsValue(s);
      assert v / 10 == DigitsValue(init);
      assert v % 10 == DigitValue(s[|s| - 1]);
      assert DigitChar(DigitValue(s[|s| - 1])) == s[|s| - 1];
      assert s == init + [s[|s| - 1]];
    } else {
      assert DigitChar(DigitValue(s[0])) == s[0];
    }
  }

  /** A non-empty run of digits that does not start with '0' has a positive value. */
  lemma {:induction false} LeadingDigitPositive(s: string)
    requires |s| > 0 && AllDigits(s) && s[0] != '0'
    ensures DigitsValue(s) > 0
  {
    if |s| > 1 {
      var init := s[..|s| - 1];
      assert AllDigits(init) && init[0] == s[0];
      LeadingDigitPositive(init);
    }
  }

  /** An item code has a special character exactly when one of its two parts has one. */
  lemma {:induction false} HasSpecialCharsAppend(a: string, b: string)
    ensures HasSpecialChars(a + b) <==> HasSpecialChars(a) || HasSpecialChars(b)
  {
    if |a| > 0 {
      assert (a + b)[0] == a[0] && (a + b)[1..] == a[1..] + b;
      HasSpecialCharsAppend(a[1..], b);
    } else {
      assert a + b == b;
    }
  }

  /** An empty item code and one of word characters have none; a '-' is special. */
  lemma HasSpecialCharsExamples()
    ensures !HasSpecialChars("")
    ensures !HasSpecialChars("ITEM_1")
    ensures HasSpecialChars("ITEM-1")
  {
    HasSpecialCharsIffSome("ITEM_1");
    HasSpecialCharsIffSome("ITEM-1");
    assert !IsWordChar("ITEM-1"[4]);
  }

  /** With no quantity the profit is the discount. */
  lemma ProfitZeroQuantity(salePrice: real, discount: real, internalPrice: real)
    ensures CalculateProfit(salePrice, 0, discount, internalPrice) == discount
  {
  }

  /** The profit is the per-unit difference of internal and sale price times the quantity,
      plus the discount. */
  lemma ProfitPerUnit(salePrice: real, quantity: Int32, discount: real, internalPrice: real)
    ensures CalculateProfit(salePrice, quantity, discount, internalPrice)
         == (internalPrice - salePrice) * quantity as real + discount
  {
  }

  /** internal price 80, quantity 2, sale price 100, discount 10: 160 - (200 - 10) = -30. */
  lemma ProfitExample()
    ensures CalculateProfit(100.0, 2, 10.0, 80.0) == -30.0
  {
  }
}
