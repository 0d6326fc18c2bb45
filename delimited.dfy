/** Java's String.split(regex) with limit 0, for a regex that is one literal character
    (",", "\t"): the line is cut at every delimiter, trailing empty fields are dropped, and a
    line without any delimiter comes back whole, even when it is empty. */
module Delimited {

  /** Every field of s between delimiters, empty ones included: one more than there are
      delimiters in s. */
  function Pieces(s: string, d: char): (r: seq<string>)
    ensures |r| >= 1
    ensures forall k :: 0 <= k < |r| ==> d !in r[k]
  {
    if |s| == 0 then [""]
    else
      var rest := Pieces(s[1..], d);
      if s[0] == d then [""] + rest else [[s[0]] + rest[0]] + rest[1..]
  }

  /** The fields written out with the delimiter between them. */
  function Join(ps: seq<string>, d: char): string
    requires |ps| >= 1
  {
    if |ps| == 1 then ps[0] else ps[0] + [d] + Join(ps[1..], d)
  }

  /** The fields without the empty ones at the end. */
  function DropTrailingEmpty(ps: seq<string>): (r: seq<string>)
    ensures |r| <= |ps| && r == ps[..|r|]
    ensures r == [] || r[|r| - 1] != ""
    ensures forall k :: |r| <= k < |ps| ==> ps[k] == ""
  {
    if |ps| == 0 then ps
    else if ps[|ps| - 1] == "" then DropTrailingEmpty(ps[..|ps| - 1])
    else ps
  }

  /** line.split(d): the whole line when no delimiter occurs in it, otherwise the fields with
      trailing empty ones dropped. */
  function Split(line: string, d: char): (r: seq<string>)
    ensures forall k :: 0 <= k < |r| ==> d !in r[k]
  {
    var ps := Pieces(line, d);
    if |ps| == 1 then ps else DropTrailingEmpty(ps)
  }

  /** Joining the fields of s gives back s. */
  lemma {:induction false} JoinPieces(s: string, d: char)
    ensures Join(Pieces(s, d), d) == s
  {
    if |s| > 0 {
      JoinPieces(s[1..], d);
      var rest := Pieces(s[1..], d);
      if s[0] == d {
        assert ([""] + rest)[1..] == rest;
      } else {
        var ps := [[s[0]] + rest[0]] + rest[1..];
        if |rest| > 1 {
          assert ps[1..] == rest[1..];
          assert Join(rest, d) == rest[0] + [d] + Join(rest[1..], d);
        }
        assert s == [s[0]] + s[1..];
      }
    }
  }

  /** A field without the delimiter, then a delimiter: the first field is that text. */
  lemma {:induction false} PiecesCons(a: string, d: char, b: string)
    requires d !in a
    ensures Pieces(a + [d] + b, d) == [a] + Pieces(b, d)
  {
    if |a| > 0 {
      assert (a + [d] + b)[1..] == a[1..] + [d] + b;
      PiecesCons(a[1..], d, b);
      assert [a[0]] + a[1..] == a;
    } else {
      assert a + [d] + b == [d] + b;
      assert ([d] + b)[1..] == b;
    }
  }

  /** Text without the delimiter is one field. */
  lemma {:induction false} PiecesSingle(a: string, d: char)
    requires d !in a
    ensures Pieces(a, d) == [a]
  {
    if |a| > 0 {
      PiecesSingle(a[1..], d);
      assert [a[0]] + a[1..] == a;
    }
  }

  /** Cutting a joined line at the delimiter gives back the fields, provided none of them
      holds the delimiter: Pieces and Join are inverse to each other. */
  lemma {:induction false} PiecesJoin(ps: seq<string>, d: char)
    requires |ps| >= 1
    requires forall k :: 0 <= k < |ps| ==> d !in ps[k]
    ensures Pieces(Join(ps, d), d) == ps
  {
    if |ps| == 1 {
      PiecesSingle(ps[0], d);
    } else {
      PiecesJoin(ps[1..], d);
      PiecesCons(ps[0], d, Join(ps[1..], d));
      assert [ps[0]] + ps[1..] == ps;
    }
  }

  /** A joined line of two or more fields holds the delimiter. */
  lemma JoinHasDelimiter(ps: seq<string>, d: char)
    requires |ps| >= 2
    ensures d in Join(ps, d)
  {
    assert Join(ps, d)[|ps[0]|] == d;
  }

  /** A row written with the delimiter splits back into its fields when none of them holds
      the delimiter and the last one is not empty. */
  lemma SplitJoin(ps: seq<string>, d: char)
    requires |ps| >= 1 && ps[|ps| - 1] != ""
    requires forall k :: 0 <= k < |ps| ==> d !in ps[k]
    ensures Split(Join(ps, d), d) == ps
  {
    PiecesJoin(ps, d);
  }

  /** A line has a single field exactly when the delimiter does not occur in it, so Split
      returns a line without the delimiter whole. */
  lemma {:induction false} SinglePieceIffNoDelimiter(s: string, d: char)
    ensures |Pieces(s, d)| == 1 <==> d !in s
  {
    if |s| > 0 {
      SinglePieceIffNoDelimiter(s[1..], d);
      assert s == [s[0]] + s[1..];
    }
  }

  /** Split in the terms of String.split: a line without the delimiter comes back as the one
      element array holding it, any other line as its fields less the trailing empty ones. */
  lemma SplitCases(line: string, d: char)
    ensures d !in line ==> Split(line, d) == [line]
    ensures d in line ==> Split(line, d) == DropTrailingEmpty(Pieces(line, d))
  {
    SinglePieceIffNoDelimiter(line, d);
    if d !in line {
      PiecesSingle(line, d);
    }
  }

  /** How many times d occurs in s. */
  function Occurrences(s: string, d: char): nat {
    if |s| == 0 then 0 else (if s[0] == d then 1 else 0) + Occurrences(s[1..], d)
  }

  /** A line with n delimiters has n + 1 fields, and splitting keeps at most that many. */
  lemma {:induction false} SplitBound(line: string, d: char)
    ensures |Pieces(line, d)| == Occurrences(line, d) + 1
    ensures |Split(line, d)| <= Occurrences(line, d) + 1
  {
    if |line| > 0 {
      SplitBound(line[1..], d);
    }
  }

  /** "a,b,," splits into two fields; a line that is only delimiters into none; the empty
      line into one empty field. */
  lemma SplitExamples()
    ensures Split("a,b,,", ',') == ["a", "b"]
    ensures Split(",,", ',') == []
    ensures Split("", ',') == [""]
  {
    assert Join(["a", "b", "", ""], ',') == "a,b,,";
    PiecesJoin(["a", "b", "", ""], ',');
    assert "a,b,,"[1] == ',';
    assert DropTrailingEmpty(["a", "b", "", ""]) == ["a", "b"];
    assert Join(["", "", ""], ',') == ",,";
    PiecesJoin(["", "", ""], ',');
    assert ",,"[0] == ',';
  }
}
