/**
 * The `split_year` validators of graduate-program students and researchers:
 * "2021; 2022" becomes [2021, 2022] by splitting on ";", stripping each piece
 * and converting it with Python's `int()`. Both model classes carry the same
 * validator; it is modelled once here.
 */
module YearList {
  import opened Wrappers
  import opened Text

  /** The exception `int()` raises on a piece that is not a decimal literal. */
  datatype ParseError = InvalidLiteral(piece: string)

  function DigitValue(c: char): nat
    requires IsDigit(c)
  {
    (c as int) - ('0' as int)
  }

  /**
   * The unsigned part of a base-10 `int()` literal: digits, with single
   * underscores allowed between two digits ("2_021"); read from the right.
   */
  function ParseGrouped(s: string): Option<nat>
  {
    if s == [] || !IsDigit(s[|s| - 1]) then None
    else if |s| == 1 then Some(DigitValue(s[0]))
    else
      var prefix := if s[|s| - 2] == '_' then s[..|s| - 2] else s[..|s| - 1];
      match ParseGrouped(prefix)
      case None => None
      case Some(v) => Some(v * 10 + DigitValue(s[|s| - 1]))
  }

  /** `int(s)` on an already stripped string: an optional sign, then grouped digits. */
  function ParseInt(s: string): Option<int>
  {
    if s != [] && (s[0] == '-' || s[0] == '+') then
      match ParseGrouped(s[1..])
      case None => None
      case Some(n) => Some(if s[0] == '-' then -(n as int) else n as int)
    else
      match ParseGrouped(s)
      case None => None
      case Some(n) => Some(n)
  }

  /** `int(p.strip())` for one piece. */
  function Year(piece: string): Option<int>
  {
    ParseInt(Strip(piece))
  }

  /** Every piece converts. */
  predicate AllConvert(pieces: seq<string>, convert: string -> Option<int>)
  {
    forall i :: 0 <= i < |pieces| ==> convert(pieces[i]).Some?
  }

  /**
   * A list comprehension over `pieces` that stops at the first piece
   * `convert` rejects; `split_year` uses `Year`.
   */
  function ParsePieces(pieces: seq<string>, convert: string -> Option<int>): (r: Result<seq<int>, ParseError>)
    ensures r.Ok? ==> |r.value| == |pieces|
  {
    if pieces == [] then Ok([])
    else
      match convert(pieces[0])
      case None => Err(InvalidLiteral(pieces[0]))
      case Some(y) =>
        match ParsePieces(pieces[1..], convert)
        case Err(e) => Err(e)
        case Ok(ys) => Ok([y] + ys)
  }

  /** The list converts exactly when every piece does. */
  lemma {:induction false} ParsePiecesOk(pieces: seq<string>, convert: string -> Option<int>)
    ensures ParsePieces(pieces, convert).Ok? <==> AllConvert(pieces, convert)
  {
    if pieces != [] {
      ParsePiecesOk(pieces[1..], convert);
      assert forall i :: 0 < i < |pieces| ==> pieces[i] == pieces[1..][i - 1];
    }
  }

  /** A converted list holds each piece's value, in order. */
  lemma {:induction false} ParsePiecesValues(pieces: seq<string>, convert: string -> Option<int>)
    ensures var r := ParsePieces(pieces, convert);
            r.Ok? ==> forall i :: 0 <= i < |pieces| ==> convert(pieces[i]) == Some(r.value[i])
  {
    if pieces != [] {
      ParsePiecesValues(pieces[1..], convert);
      assert forall i :: 0 < i < |pieces| ==> pieces[i] == pieces[1..][i - 1];
    }
  }

  /** A failure names a piece of the input that does not convert. */
  lemma {:induction false} ParsePiecesError(pieces: seq<string>, convert: string -> Option<int>)
    ensures var r := ParsePieces(pieces, convert);
            r.Err? ==> r.error.piece in pieces && convert(r.error.piece).None?
  {
    if pieces != [] {
      ParsePiecesError(pieces[1..], convert);
    }
  }

  /** `split_year`: one year per ";"-separated piece, in input order. */
  function SplitYear(v: string): (r: Result<seq<int>, ParseError>)
    ensures r.Ok? ==> |r.value| == Count(v, ';') + 1
  {
    ParsePieces(Split(v, ';'), Year)
  }

  /** `str(n)` for a non-negative integer. */
  function Decimal(n: nat): (s: string)
    ensures s != [] && forall i :: 0 <= i < |s| ==> IsDigit(s[i])
  {
    if n < 10 then [('0' as int + n) as char]
    else Decimal(n / 10) + [('0' as int + n % 10) as char]
  }

  /** `int(str(n)) == n` for every non-negative `n`, and `str(n)` needs no stripping. */
  lemma ParseDecimal(n: nat)
    ensures Strip(Decimal(n)) == Decimal(n)
    ensures ParseInt(Decimal(n)) == Some(n)
  {
    var s := Decimal(n);
    StripUnchanged(s);
    GroupedDecimal(n);
    assert IsDigit(s[0]);
    UnsignedLiteral(s);
  }

  /** A literal that starts with a digit is read without a sign. */
  lemma UnsignedLiteral(s: string)
    requires s != [] && IsDigit(s[0])
    ensures ParseInt(s) == (match ParseGrouped(s) case None => None case Some(n) => Some(n as int))
  {
  }

  lemma {:induction false} GroupedDecimal(n: nat)
    ensures ParseGrouped(Decimal(n)) == Some(n)
  {
    if n >= 10 {
      GroupedDecimal(n / 10);
      var s, p := Decimal(n), Decimal(n / 10);
      assert s[..|s| - 1] == p;
      assert s[|s| - 2] != '_' by { assert s[|s| - 2] == p[|p| - 1]; }
    }
  }

  function Decimals(ys: seq<nat>): (r: seq<string>)
    ensures |r| == |ys|
    ensures forall i :: 0 <= i < |ys| ==> r[i] == Decimal(ys[i])
  {
    if ys == [] then [] else [Decimal(ys[0])] + Decimals(ys[1..])
  }

  /** Round trip: joining the decimal forms of a non-empty year list with ";" and parsing gives the list back. */
  lemma SplitYearOfJoin(ys: seq<nat>)
    requires |ys| > 0
    ensures SplitYear(Join(Decimals(ys), ';')) == Ok(ys)
  {
    var parts := Decimals(ys);
    forall i | 0 <= i < |parts|
      ensures ';' !in parts[i]
      ensures Year(parts[i]) == Some(ys[i] as int)
    {
      ParseDecimal(ys[i]);
    }
    SplitJoin(parts, ';');
    ParsePiecesOk(parts, Year);
    ParsePiecesValues(parts, Year);
    var r := SplitYear(Join(parts, ';'));
    assert r.Ok?;
    assert r.value == ys;
  }

  /** A blank piece is not a literal: `int("")` raises. */
  lemma BlankRejected(piece: string)
    requires forall k :: 0 <= k < |piece| ==> IsSpace(piece[k])
    ensures Year(piece).None?
  {
    StripIsSlice(piece);
  }

  /**
   * The empty string, a trailing ";" and two adjacent separators leave a
   * blank piece, which `int()` rejects.
   */
  lemma EmptyPieceRaises(v: string, j: nat)
    requires j < |Split(v, ';')|
    requires forall k :: 0 <= k < |Split(v, ';')[j]| ==> IsSpace(Split(v, ';')[j][k])
    ensures SplitYear(v).Err?
  {
    BlankRejected(Split(v, ';')[j]);
    ParsePiecesOk(Split(v, ';'), Year);
  }

  /** A trailing ";" leaves an empty last piece. */
  lemma TrailingSeparatorRaises(pieces: seq<string>)
    requires |pieces| > 0 && forall i :: 0 <= i < |pieces| ==> ';' !in pieces[i]
    ensures SplitYear(Join(pieces + [""], ';')).Err?
  {
    var parts := pieces + [""];
    SplitJoin(parts, ';');
    EmptyPieceRaises(Join(parts, ';'), |pieces|);
  }

  /** The characters an `int()` literal may hold once stripped. */
  predicate LiteralChar(c: char)
  {
    IsDigit(c) || c == '_' || c == '+' || c == '-'
  }

  /**
   * A single piece holding any other non-space character, such as a letter,
   * is not a year: the validator raises.
   */
  lemma NonNumericRaises(v: string, i: nat)
    requires ';' !in v
    requires i < |v| && !IsSpace(v[i]) && !LiteralChar(v[i])
    ensures SplitYear(v).Err?
  {
    StrippedLetterRejected(v, i);
    OnePieceRejected(v);
  }

  /** A non-space character survives the strip, so the stripped piece is not a literal. */
  lemma StrippedLetterRejected(v: string, i: nat)
    requires i < |v| && !IsSpace(v[i]) && !LiteralChar(v[i])
    ensures Year(v).None?
  {
    var l := TrimLeft(v);
    var a := |v| - |l|;
    assert a <= i && l[i - a] == v[i];
    var t := TrimRight(l);
    assert i - a < |t| && t[i - a] == v[i];
    IntegerChars(t);
  }

  /** A value without ";" is one piece, so it fails exactly when that piece does. */
  lemma OnePieceRejected(v: string)
    requires ';' !in v && Year(v).None?
    ensures SplitYear(v).Err?
  {
    SplitNoSeparator(v, ';');
    ParsePiecesOk([v], Year);
  }

  /** Every character of a literal `int()` accepts is a digit, an underscore or a sign. */
  lemma IntegerChars(s: string)
    ensures ParseInt(s).Some? ==> forall k :: 0 <= k < |s| ==> LiteralChar(s[k])
  {
    if s != [] && (s[0] == '-' || s[0] == '+') {
      GroupedChars(s[1..]);
      assert forall k :: 0 < k < |s| ==> s[k] == s[1..][k - 1];
    } else {
      GroupedChars(s);
    }
  }

  lemma {:induction false} GroupedChars(s: string)
    ensures ParseGrouped(s).Some? ==> forall k :: 0 <= k < |s| ==> IsDigit(s[k]) || s[k] == '_'
  {
    if s != [] && IsDigit(s[|s| - 1]) && |s| > 1 {
      var prefix := if s[|s| - 2] == '_' then s[..|s| - 2] else s[..|s| - 1];
      GroupedChars(prefix);
      assert forall k :: 0 <= k < |prefix| ==> s[k] == prefix[k];
    }
  }

  /** "2021; 2022" gives [2021, 2022]: the space before 2022 is stripped. */
  lemma SampleYears()
    ensures SplitYear("2021; 2022") == Ok([2021, 2022])
  {
    SampleYearPieces();
    SampleYearsParsed();
  }

  lemma SampleYearPieces()
    ensures Split("2021; 2022", ';') == ["2021", " 2022"]
  {
    var parts := ["2021", " 2022"];
    SplitJoin(parts, ';');
    assert Join(parts, ';') == "2021; 2022";
  }

  lemma SampleYearsParsed()
    ensures ParsePieces(["2021", " 2022"], Year) == Ok([2021, 2022])
  {
    Year2021();
    Year2022();
    ParseTwoPieces("2021", " 2022", 2021, 2022, Year);
  }

  lemma ParseTwoPieces(a: string, b: string, x: int, y: int, convert: string -> Option<int>)
    requires convert(a) == Some(x) && convert(b) == Some(y)
    ensures ParsePieces([a, b], convert) == Ok([x, y])
  {
    assert [b][1..] == [];
    assert ParsePieces([], convert) == Ok([]);
    assert [y] + [] == [y];
    assert ParsePieces([b], convert) == Ok([y]);
    assert [a, b][1..] == [b];
    assert [x] + [y] == [x, y];
  }

  lemma Year2021()
    ensures Year("2021") == Some(2021)
  {
    StripUnchanged("2021");
    FourDigits("2021");
  }

  lemma Year2022()
    ensures Year(" 2022") == Some(2022)
  {
    StripFirstSpace(" 2022");
    FourDigits("2022");
  }

  lemma StripFirstSpace(s: string)
    requires |s| >= 2 && s[0] == ' ' && !IsSpace(s[1]) && !IsSpace(s[|s| - 1])
    ensures Strip(s) == s[1..]
  {
    assert TrimLeft(s) == TrimLeft(s[1..]);
    StripUnchanged(s[1..]);
  }

  /** `int()` of four ASCII digits. */
  lemma FourDigits(s: string)
    requires |s| == 4 && IsDigit(s[0]) && IsDigit(s[1]) && IsDigit(s[2]) && IsDigit(s[3])
    ensures ParseInt(s) == Some(1000 * DigitValue(s[0]) + 100 * DigitValue(s[1])
                                + 10 * DigitValue(s[2]) + DigitValue(s[3]))
  {
    assert s[..3][..2] == s[..2] && s[..2][..1] == s[..1];
    assert ParseGrouped(s[..1]) == Some(DigitValue(s[0]));
    assert ParseGrouped(s[..2]) == Some(10 * DigitValue(s[0]) + DigitValue(s[1]));
    assert ParseGrouped(s[..3]) == Some(100 * DigitValue(s[0]) + 10 * DigitValue(s[1]) + DigitValue(s[2]));
  }
}
