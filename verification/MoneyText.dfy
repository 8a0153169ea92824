/** Decimal text: digits and their values. */
module DecimalText {
  predicate IsDigit(c: char) { '0' <= c <= '9' }

  predicate IsDigits(s: string) { forall i :: 0 <= i < |s| ==> IsDigit(s[i]) }

  function DigitChar(d: int): (c: char)
    requires 0 <= d < 10
    ensures IsDigit(c) && c as int - '0' as int == d
  {
    ('0' as int + d) as char
  }

  /** The decimal digits of a number, as `toString` prints them. */
  function Digits(n: nat): string {
    if n < 10 then [DigitChar(n)] else Digits(n / 10) + [DigitChar(n % 10)]
  }

  function Value(s: string): nat
    requires IsDigits(s)
  {
    if s == [] then 0 else Value(s[..|s| - 1]) * 10 + (s[|s| - 1] as int - '0' as int)
  }

  function PadStart(s: string, n: nat): string
    decreases n - |s|
  {
    if |s| >= n then s else PadStart(['0'] + s, n)
  }

  function PadEnd(s: string, n: nat): (r: string)
    ensures IsDigits(s) ==> IsDigits(r)
    ensures |s| >= n ==> r == s
    decreases n - |s|
  {
    if |s| >= n then s else PadEnd(s + ['0'], n)
  }

  lemma ValueAppend(s: string, c: char)
    requires IsDigits(s) && IsDigit(c)
    ensures IsDigits(s + [c]) && Value(s + [c]) == Value(s) * 10 + (c as int - '0' as int)
  {
    assert (s + [c])[..|s|] == s;
  }

  /** Printing a number and reading its digits gives it back. */
  lemma {:induction false} DigitsRoundTrip(n: nat)
    ensures Digits(n) != [] && IsDigits(Digits(n)) && Value(Digits(n)) == n
    ensures n > 0 ==> Digits(n)[0] != '0'
  {
    if n >= 10 {
      DigitsRoundTrip(n / 10);
      ValueAppend(Digits(n / 10), DigitChar(n % 10));
    } else {
      ValueAppend([], DigitChar(n));
      assert [] + [DigitChar(n)] == [DigitChar(n)];
    }
  }

  lemma {:induction false} LeadingZero(s: string)
    requires IsDigits(s)
    ensures IsDigits(['0'] + s) && Value(['0'] + s) == Value(s)
  {
    if s == [] {
      ValueAppend([], '0');
      assert [] + ['0'] == ['0'] + s;
    } else {
      var n := |s| - 1;
      LeadingZero(s[..n]);
      ValueAppend(['0'] + s[..n], s[n]);
      assert ['0'] + s == (['0'] + s[..n]) + [s[n]];
    }
  }

  lemma {:induction false} PaddingKeepsValue(s: string, n: nat)
    requires IsDigits(s)
    ensures IsDigits(PadStart(s, n)) && Value(PadStart(s, n)) == Value(s)
    ensures |PadStart(s, n)| == if |s| >= n then |s| else n
    decreases n - |s|
  {
    if |s| < n {
      LeadingZero(s);
      PaddingKeepsValue(['0'] + s, n);
    }
  }

  /** Without leading zeros, keeping at least one digit. */
  function StripZeros(s: string): string {
    if |s| > 1 && s[0] == '0' then StripZeros(s[1..]) else s
  }

  lemma {:induction false} StripKeepsValue(s: string)
    requires IsDigits(s) && s != []
    ensures var t := StripZeros(s);
      t != [] && IsDigits(t) && Value(t) == Value(s) && (|t| > 1 ==> t[0] != '0')
  {
    if |s| > 1 && s[0] == '0' {
      assert s == ['0'] + s[1..];
      LeadingZero(s[1..]);
      StripKeepsValue(s[1..]);
    }
  }

  lemma {:induction false} SameLengthSameValue(s: string, t: string)
    requires IsDigits(s) && IsDigits(t) && |s| == |t| && Value(s) == Value(t)
    ensures s == t
  {
    if s != [] {
      var n := |s| - 1;
      SameLengthSameValue(s[..n], t[..n]);
      assert s == s[..n] + [s[n]] && t == t[..n] + [t[n]];
    }
  }

  function Pow10(n: nat): nat { if n == 0 then 1 else 10 * Pow10(n - 1) }

  lemma {:induction false} ValueBounds(s: string)
    requires IsDigits(s)
    ensures Value(s) < Pow10(|s|)
    ensures s != [] && s[0] != '0' ==> Value(s) >= Pow10(|s| - 1)
  {
    if s != [] {
      var n := |s| - 1;
      ValueBounds(s[..n]);
      if n > 0 {
        assert s[..n][0] == s[0];
      }
    }
  }

  lemma {:induction false} Pow10Grows(m: nat, n: nat)
    requires m <= n
    ensures Pow10(m) <= Pow10(n)
  {
    if m < n {
      Pow10Grows(m, n - 1);
    }
  }

  lemma CanonicalNoLonger(s: string, t: string)
    requires IsDigits(s) && IsDigits(t) && s != [] && t != [] && Value(s) == Value(t) && (|s| > 1 ==> s[0] != '0')
    ensures |s| <= |t|
  {
    ValueBounds(s);
    ValueBounds(t);
    if |s| > 1 && |t| <= |s| - 1 {
      Pow10Grows(|t|, |s| - 1);
    }
  }

  /** Digits without a spare leading zero are the printed digits of their value. */
  lemma CanonicalDigits(s: string)
    requires IsDigits(s) && s != [] && (|s| > 1 ==> s[0] != '0')
    ensures s == Digits(Value(s))
  {
    var t := Digits(Value(s));
    DigitsRoundTrip(Value(s));
    DigitsStartWell(Value(s));
    CanonicalNoLonger(s, t);
    CanonicalNoLonger(t, s);
    SameLengthSameValue(s, t);
  }

  lemma DigitsStartWell(n: nat)
    ensures |Digits(n)| > 1 ==> Digits(n)[0] != '0'
  {
    DigitsRoundTrip(n);
  }

  lemma Shifted(v: nat, p: nat, low: nat, digit: nat, high: nat)
    requires v == high * p + low
    ensures v * 10 + digit == high * (10 * p) + (low * 10 + digit)
  {
    assert high * p * 10 == high * (10 * p);
  }

  lemma {:induction false} ValueSplits(s: string, t: string)
    requires IsDigits(s) && IsDigits(t)
    ensures IsDigits(s + t) && Value(s + t) == Value(s) * Pow10(|t|) + Value(t)
  {
    if t == [] {
      assert s + t == s;
    } else {
      hide IsDigits;
      var n := |t| - 1;
      var init, c := t[..n], t[n];
      assert IsDigits(init) && IsDigit(c) by { InitIsDigits(t); }
      ValueSplits(s, init);
      ValueAppend(s + init, c);
      assert s + t == (s + init) + [c];
      Shifted(Value(s + init), Pow10(n), Value(init), c as int - '0' as int, Value(s));
    }
  }

  lemma InitIsDigits(t: string)
    requires t != [] && IsDigits(t)
    ensures IsDigits(t[..|t| - 1]) && IsDigit(t[|t| - 1])
  {
  }
}

/** Money as text: the server's printer and parser, and the browser's printer. */
module MoneyText {
  import opened Outcomes
  import opened Rounding
  import opened Money
  import opened DecimalText

  // ----- Grouping -----

  /** The digit at a position, after a comma if it is an inner one that an even number of digits follows. */
  function Piece(s: string, from: nat): string
    requires from < |s|
  {
    (if from > 0 && (|s| - from) % 2 == 0 then "," else "") + [s[from]]
  }

  function PairCommas(s: string, from: nat): string
    requires from <= |s|
    decreases |s| - from
  {
    if from == |s| then [] else Piece(s, from) + PairCommas(s, from + 1)
  }

  /** Groups digits as India does: the last three, then pairs. */
  function GroupIndian(digits: string): string {
    if |digits| <= 3 then digits
    else
      var cut := |digits| - 3;
      PairCommas(digits[..cut], 0) + "," + digits[cut..]
  }

  /** Pairs counted from the right. */
  function PairsFromRight(s: string): string {
    if |s| <= 2 then s else PairsFromRight(s[..|s| - 2]) + "," + s[|s| - 2..]
  }

  lemma LastPieces(s: string)
    requires |s| > 2
    ensures Piece(s, |s| - 2) == [',', s[|s| - 2]] && Piece(s, |s| - 1) == [s[|s| - 1]]
  {
  }

  lemma NextPiece(s: string, from: nat)
    requires from <= |s|
    ensures PairCommas(s, from) == if from == |s| then [] else Piece(s, from) + PairCommas(s, from + 1)
  {
  }

  lemma CommaPair(x: char, y: char)
    ensures [',', x] + ([y] + []) == "," + [x, y]
  {
  }

  lemma LastPair(s: string)
    requires |s| > 2
    ensures PairCommas(s, |s| - 2) == "," + s[|s| - 2..]
  {
    hide Piece, PairCommas;
    var cut := |s| - 2;
    LastPieces(s);
    NextPiece(s, cut + 2);
    NextPiece(s, cut + 1);
    NextPiece(s, cut);
    CommaPair(s[cut], s[cut + 1]);
    assert s[cut..] == [s[cut], s[cut + 1]];
  }

  lemma SamePiece(s: string, from: nat)
    requires |s| > 2 && from < |s| - 2
    ensures Piece(s, from) == Piece(s[..|s| - 2], from)
  {
    assert (|s| - from) % 2 == (|s| - 2 - from) % 2;
  }

  lemma {:induction false} PairCommasSplits(s: string, from: nat)
    requires |s| > 2 && from <= |s| - 2
    ensures PairCommas(s, from) == PairCommas(s[..|s| - 2], from) + ("," + s[|s| - 2..])
    decreases |s| - from
  {
    hide Piece;
    var cut := |s| - 2;
    var rest, last := s[..cut], "," + s[cut..];
    if from == cut {
      LastPair(s);
      assert PairCommas(rest, from) == [];
    } else {
      PairCommasSplits(s, from + 1);
      SamePiece(s, from);
      Associates(Piece(s, from), PairCommas(rest, from + 1), last);
    }
  }

  lemma Associates(a: string, b: string, c: string)
    ensures (a + b) + c == a + (b + c)
  {
  }

  /** Looking ahead for pairs and counting pairs from the right place the same commas. */
  lemma {:induction false} GroupsArePairs(s: string)
    ensures PairCommas(s, 0) == PairsFromRight(s)
  {
    if |s| > 2 {
      PairCommasSplits(s, 0);
      GroupsArePairs(s[..|s| - 2]);
      Associates(PairsFromRight(s[..|s| - 2]), ",", s[|s| - 2..]);
    } else if |s| == 2 {
      assert PairCommas(s, 2) == [];
      assert PairCommas(s, 1) == [s[1]];
      assert PairCommas(s, 0) == [s[0]] + [s[1]] == s;
    } else if |s| == 1 {
      assert PairCommas(s, 1) == [];
      assert PairCommas(s, 0) == [s[0]] == s;
    }
  }

  /** A comma stands before a digit, other than the first, exactly when three, five, seven or more digits are
      left from it on. */
  function Placed(s: string, from: nat): string
    requires from <= |s|
    decreases |s| - from
  {
    if from == |s| then []
    else
      (if from > 0 && |s| - from >= 3 && (|s| - from) % 2 == 1 then "," else "") + [s[from]] + Placed(s, from + 1)
  }

  lemma {:induction false} ShortIsPlain(s: string, from: nat)
    requires from <= |s| && (from == 0 ==> |s| <= 3) && (from > 0 ==> |s| - from < 3)
    ensures Placed(s, from) == s[from..]
    decreases |s| - from
  {
    if from < |s| {
      ShortIsPlain(s, from + 1);
      assert s[from..] == [s[from]] + s[from + 1..];
    }
  }

  lemma LastThree(s: string)
    requires |s| > 3
    ensures Placed(s, |s| - 3) == "," + s[|s| - 3..]
  {
    var cut := |s| - 3;
    ShortIsPlain(s, cut + 1);
    assert Placed(s, cut) == "," + [s[cut]] + Placed(s, cut + 1);
    hide Placed;
    assert s[cut..] == [s[cut]] + s[cut + 1..];
    Associates(",", [s[cut]], s[cut + 1..]);
  }

  lemma {:induction false} HeadIsPlaced(s: string, from: nat)
    requires |s| > 3 && from <= |s| - 3
    ensures PairCommas(s[..|s| - 3], from) + ("," + s[|s| - 3..]) == Placed(s, from)
    decreases |s| - from
  {
    var cut := |s| - 3;
    var rest, last := s[..cut], "," + s[cut..];
    if from == cut {
      LastThree(s);
      assert PairCommas(rest, from) == [];
    } else {
      HeadIsPlaced(s, from + 1);
      PieceIsPlaced(s, from);
      NextPiece(rest, from);
      hide PairCommas, Piece;
      Associates(Piece(rest, from), PairCommas(rest, from + 1), last);
    }
  }

  lemma PieceIsPlaced(s: string, from: nat)
    requires |s| > 3 && from < |s| - 3
    ensures Placed(s, from) == Piece(s[..|s| - 3], from) + Placed(s, from + 1)
  {
    var rest := s[..|s| - 3];
    assert (|rest| - from) % 2 == 0 <==> (|s| - from) % 2 == 1;
    assert rest[from] == s[from];
  }

  /** Where the commas of a grouped number stand. */
  lemma GroupsFromTheRight(s: string)
    ensures GroupIndian(s) == Placed(s, 0)
  {
    hide PairCommas, Placed;
    if |s| <= 3 {
      ShortIsPlain(s, 0);
      assert s[0..] == s;
    } else {
      HeadIsPlaced(s, 0);
      var cut := |s| - 3;
      Associates(PairCommas(s[..cut], 0), ",", s[cut..]);
    }
  }

  // ----- The server's printer and parser -----

  function PaiseOf(fraction: nat): string { PadStart(Digits(fraction), 2) }

  function Sign(negative: bool): string { if negative then "-" else "" }

  function ToRupeesString(paise: int, grouping: bool): string {
    var whole := Digits(Abs(paise) / PAISE_PER_RUPEE);
    Sign(paise < 0) + (if grouping then GroupIndian(whole) else whole) + "." + PaiseOf(Abs(paise) % PAISE_PER_RUPEE)
  }

  /** The white space `trim` removes. */
  predicate IsSpace(c: char) {
    var u := c as int;
    9 <= u <= 13 || u == 32 || u == 0xA0 || u == 0x1680 || 0x2000 <= u <= 0x200A || u == 0x2028 || u == 0x2029
    || u == 0x202F || u == 0x205F || u == 0x3000 || u == 0xFEFF
  }

  function TrimStart(s: string): string { if s != [] && IsSpace(s[0]) then TrimStart(s[1..]) else s }

  function TrimEnd(s: string): string {
    if s != [] && IsSpace(s[|s| - 1]) then TrimEnd(s[..|s| - 1]) else s
  }

  function Trim(s: string): string { TrimEnd(TrimStart(s)) }

  function RemoveCommas(s: string): string {
    if s == [] then [] else (if s[0] == ',' then [] else [s[0]]) + RemoveCommas(s[1..])
  }

  /** Where the first point is, or the length. */
  function PointAt(s: string): (i: nat)
    ensures i <= |s| && (i < |s| ==> s[i] == '.') && forall j :: 0 <= j < i ==> s[j] != '.'
  {
    if s == [] || s[0] == '.' then 0 else 1 + PointAt(s[1..])
  }

  /** An unsigned amount: digits, then optionally a point and one or two digits. */
  function ParseUnsigned(s: string): Result<nat, MoneyError> {
    var i := PointAt(s);
    var whole := s[..i];
    if whole == [] || !IsDigits(whole) then Failure(NotARupeeAmount)
    else if i == |s| then Success(Value(whole) * PAISE_PER_RUPEE)
    else
      var fraction := s[i + 1..];
      if !IsDigits(fraction) || |fraction| < 1 || |fraction| > 2 then Failure(NotARupeeAmount)
      else Success(Value(whole) * PAISE_PER_RUPEE + Value(PadEnd(fraction, 2)))
  }

  function FromRupees(text: string): Result<int, MoneyError> {
    var s := RemoveCommas(Trim(text));
    var negative := s != [] && s[0] == '-';
    match ParseUnsigned(if negative then s[1..] else s)
    case Failure(e) => Failure(e)
    case Success(total) => Success(Signed(negative, total))
  }

  function Signed(negative: bool, n: nat): int { if negative then -(n as int) else n as int }

  lemma {:induction false} RemoveCommasSplits(s: string, t: string)
    ensures RemoveCommas(s + t) == RemoveCommas(s) + RemoveCommas(t)
  {
    if s == [] {
      assert s + t == t;
    } else {
      var first := if s[0] == ',' then [] else [s[0]];
      RemoveCommasSplits(s[1..], t);
      assert (s + t)[0] == s[0] && (s + t)[1..] == s[1..] + t;
      assert RemoveCommas(s + t) == first + RemoveCommas(s[1..] + t);
      assert RemoveCommas(s) == first + RemoveCommas(s[1..]);
      Associates(first, RemoveCommas(s[1..]), RemoveCommas(t));
    }
  }

  lemma {:induction false} NoCommas(s: string)
    requires ',' !in s
    ensures RemoveCommas(s) == s
  {
    if s != [] {
      NoCommas(s[1..]);
      assert s == [s[0]] + s[1..];
    }
  }

  lemma UngroupPiece(s: string, from: nat)
    requires IsDigits(s) && from < |s|
    ensures RemoveCommas(Piece(s, from)) == [s[from]]
  {
    NoCommas([s[from]]);
    assert Piece(s, from)[0] == ',' ==> Piece(s, from)[1..] == [s[from]];
  }

  lemma {:induction false} UngroupPairs(s: string, from: nat)
    requires IsDigits(s) && from <= |s|
    ensures RemoveCommas(PairCommas(s, from)) == s[from..]
    decreases |s| - from
  {
    if from == |s| {
      assert PairCommas(s, from) == [];
    } else {
      hide Piece, IsDigits, RemoveCommas, PairCommas;
      NextPiece(s, from);
      UngroupPairs(s, from + 1);
      RemoveCommasSplits(Piece(s, from), PairCommas(s, from + 1));
      UngroupPiece(s, from);
      assert s[from..] == [s[from]] + s[from + 1..];
    }
  }

  /** Grouping only inserts commas. */
  lemma Ungroup(s: string)
    requires IsDigits(s)
    ensures RemoveCommas(GroupIndian(s)) == s
  {
    if |s| <= 3 {
      NoCommas(s);
    } else {
      var cut := |s| - 3;
      var rest, last := s[..cut], s[cut..];
      assert IsDigits(rest) && IsDigits(last) && ',' !in last;
      CommaGoes();
      hide IsDigits, RemoveCommas, PairCommas;
      UngroupPairs(rest, 0);
      NoCommas(last);
      RemoveCommasSplits(PairCommas(rest, 0) + ",", last);
      RemoveCommasSplits(PairCommas(rest, 0), ",");
      assert rest[0..] + [] + last == s;
    }
  }

  lemma CommaGoes()
    ensures RemoveCommas(",") == []
  {
    assert ","[1..] == [];
  }

  lemma GroupStart(s: string)
    requires IsDigits(s) && s != []
    ensures var g := GroupIndian(s); g != [] && g[0] == s[0]
  {
  }

  lemma TrimIdentity(s: string)
    requires s != [] && !IsSpace(s[0]) && !IsSpace(s[|s| - 1])
    ensures Trim(s) == s
  {
  }

  lemma PaiseText(fraction: nat)
    requires fraction < PAISE_PER_RUPEE
    ensures var f := PaiseOf(fraction); |f| == 2 && IsDigits(f) && Value(f) == fraction
  {
    DigitsRoundTrip(fraction);
    if fraction >= 10 {
      assert Digits(fraction) == Digits(fraction / 10) + [DigitChar(fraction % 10)];
      assert |Digits(fraction / 10)| == 1;
    }
    PaddingKeepsValue(Digits(fraction), 2);
  }

  lemma PointFollows(whole: string, rest: string)
    requires IsDigits(whole)
    ensures PointAt(whole + "." + rest) == |whole|
  {
    var s := whole + "." + rest;
    assert s[|whole|] == '.';
    assert forall j :: 0 <= j < |whole| ==> s[j] == whole[j] && IsDigit(s[j]);
  }

  lemma ParsesPrinted(whole: string, fraction: string)
    requires whole != [] && IsDigits(whole) && IsDigits(fraction) && |fraction| == 2
    ensures ParseUnsigned(whole + "." + fraction) == Success(Value(whole) * PAISE_PER_RUPEE + Value(fraction))
  {
    hide PointAt, Value, IsDigits;
    PointFollows(whole, fraction);
    var s := whole + "." + fraction;
    assert s[..|whole|] == whole && s[|whole| + 1..] == fraction;
  }

  /** A printed amount without its commas. */
  lemma PrintedWithoutCommas(negative: bool, body: string, whole: string, fraction: string)
    requires RemoveCommas(body) == whole && IsDigits(fraction)
    ensures RemoveCommas(Sign(negative) + body + "." + fraction) == Sign(negative) + (whole + "." + fraction)
  {
    assert ',' !in Sign(negative) && ',' !in "." + fraction;
    hide RemoveCommas, Sign, IsDigits;
    NoCommas(Sign(negative));
    NoCommas("." + fraction);
    RemoveCommasSplits(Sign(negative), body);
    RemoveCommasSplits(Sign(negative) + body, "." + fraction);
    Associates(Sign(negative) + body, ".", fraction);
    Associates(Sign(negative) + whole, ".", fraction);
    Associates(Sign(negative), whole, "." + fraction);
    Associates(whole, ".", fraction);
  }

  lemma PrintedIsTrimmed(negative: bool, body: string, fraction: string)
    requires body != [] && IsDigit(body[0]) && IsDigits(fraction) && |fraction| == 2
    ensures var s := Sign(negative) + body + "." + fraction; Trim(s) == s
  {
    var s := Sign(negative) + body + "." + fraction;
    assert s[|s| - 1] == fraction[1] && s[0] == if negative then '-' else body[0];
    TrimIdentity(s);
  }

  /** Any amount printed as text, grouped or not, parses back to itself. */
  lemma PrintedAmountParses(paise: int, grouping: bool)
    ensures FromRupees(ToRupeesString(paise, grouping)) == Success(paise)
  {
    hide FromRupees, GroupIndian, Digits, PaiseOf, RemoveCommas;
    var n := Abs(paise);
    var whole, fraction := Digits(n / PAISE_PER_RUPEE), PaiseOf(n % PAISE_PER_RUPEE);
    DigitsRoundTrip(n / PAISE_PER_RUPEE);
    PaiseText(n % PAISE_PER_RUPEE);
    Ungroup(whole);
    GroupStart(whole);
    NoCommas(whole);
    AmountParses(paise < 0, if grouping then GroupIndian(whole) else whole, whole, fraction);
    assert Signed(paise < 0, n / PAISE_PER_RUPEE * PAISE_PER_RUPEE + n % PAISE_PER_RUPEE) == paise;
  }

  lemma AmountParses(negative: bool, body: string, whole: string, fraction: string)
    requires body != [] && IsDigit(body[0]) && RemoveCommas(body) == whole && whole != [] && IsDigits(whole)
    requires IsDigits(fraction) && |fraction| == 2
    ensures var total := Value(whole) * PAISE_PER_RUPEE + Value(fraction);
      FromRupees(Sign(negative) + body + "." + fraction) == Success(Signed(negative, total))
  {
    hide Trim, RemoveCommas, ParseUnsigned, Sign, Value;
    PrintedIsTrimmed(negative, body, fraction);
    PrintedWithoutCommas(negative, body, whole, fraction);
    ParsesPrinted(whole, fraction);
    var unsigned := whole + "." + fraction;
    assert unsigned[0] == whole[0] && IsDigit(whole[0]);
    SignParses(negative, unsigned);
  }

  /** The sign is taken off before the rest is parsed. */
  lemma SignParses(negative: bool, unsigned: string)
    requires unsigned != [] && IsDigit(unsigned[0])
    ensures var s := Sign(negative) + unsigned;
      s != [] && (s[0] == '-' <==> negative) && (if negative then s[1..] else s) == unsigned
  {
    var s := Sign(negative) + unsigned;
    assert if negative then s[1..] == unsigned else s == unsigned;
  }

  // ----- Exactly what parses -----

  function Written(negative: bool, whole: string, fraction: string): string {
    Sign(negative) + (whole + if fraction == [] then "" else "." + fraction)
  }

  /** An amount: at least one digit of rupees, then nothing, or a point and one or two digits of paise. */
  predicate IsAmount(s: string, negative: bool, whole: string, fraction: string) {
    whole != [] && IsDigits(whole) && IsDigits(fraction) && |fraction| <= 2 && s == Written(negative, whole, fraction)
  }

  /** The paise of a fraction: a single digit is tens of them. */
  function Paise(fraction: string): nat
    requires IsDigits(fraction)
  {
    if |fraction| == 1 then 10 * Value(fraction) else Value(fraction)
  }

  lemma NoPoint(s: string)
    requires IsDigits(s)
    ensures PointAt(s) == |s|
  {
    assert forall j :: 0 <= j < |s| ==> IsDigit(s[j]);
  }

  lemma PaddedPaise(fraction: string)
    requires IsDigits(fraction) && 1 <= |fraction| <= 2
    ensures Value(PadEnd(fraction, 2)) == Paise(fraction)
  {
    if |fraction| == 1 {
      ValueAppend(fraction, '0');
      assert PadEnd(fraction + ['0'], 2) == fraction + ['0'];
    }
  }

  lemma WholeParses(whole: string)
    requires whole != [] && IsDigits(whole)
    ensures ParseUnsigned(whole) == Success(Value(whole) * 100)
  {
    NoPoint(whole);
    assert whole[..|whole|] == whole;
  }

  lemma FractionParses(whole: string, fraction: string)
    requires whole != [] && IsDigits(whole) && IsDigits(fraction) && 1 <= |fraction| <= 2
    ensures ParseUnsigned(whole + "." + fraction) == Success(Value(whole) * 100 + Paise(fraction))
  {
    PointFollows(whole, fraction);
    PaddedPaise(fraction);
    hide PointAt, Value, IsDigits, PadEnd, Paise;
    var s := whole + "." + fraction;
    assert s[..|whole|] == whole && s[|whole| + 1..] == fraction;
  }

  lemma UnsignedParses(whole: string, fraction: string)
    requires whole != [] && IsDigits(whole) && IsDigits(fraction) && |fraction| <= 2
    ensures ParseUnsigned(whole + if fraction == [] then "" else "." + fraction)
         == Success(Value(whole) * 100 + Paise(fraction))
  {
    hide ParseUnsigned, IsDigits;
    if fraction == [] {
      WholeParses(whole);
      assert whole + "" == whole;
    } else {
      FractionParses(whole, fraction);
      Associates(whole, ".", fraction);
    }
  }

  lemma UnsignedHasForm(s: string) returns (whole: string, fraction: string)
    requires ParseUnsigned(s).Success?
    ensures whole != [] && IsDigits(whole) && IsDigits(fraction) && |fraction| <= 2
    ensures s == whole + if fraction == [] then "" else "." + fraction
  {
    var i := PointAt(s);
    whole := s[..i];
    if i == |s| {
      fraction := [];
      assert s == whole + "";
    } else {
      fraction := s[i + 1..];
      assert s == whole + ("." + fraction);
    }
  }

  /** A text parses exactly when, trimmed and without its commas, it is an amount, and then to the amount. */
  lemma ParsesExactlyAmounts(text: string, negative: bool, whole: string, fraction: string)
    ensures IsAmount(RemoveCommas(Trim(text)), negative, whole, fraction) ==>
      FromRupees(text) == Success(Signed(negative, Value(whole) * 100 + Paise(fraction)))
    ensures FromRupees(text).Success? ==> exists n, w, f :: IsAmount(RemoveCommas(Trim(text)), n, w, f)
  {
    hide Trim, RemoveCommas, ParseUnsigned, Value, Paise;
    var s := RemoveCommas(Trim(text));
    if IsAmount(s, negative, whole, fraction) {
      var unsigned := whole + if fraction == [] then "" else "." + fraction;
      assert unsigned[0] == whole[0];
      SignParses(negative, unsigned);
      UnsignedParses(whole, fraction);
    }
    if FromRupees(text).Success? {
      var minus := s != [] && s[0] == '-';
      var unsigned := if minus then s[1..] else s;
      var w, f := UnsignedHasForm(unsigned);
      assert s == Sign(minus) + unsigned;
      assert IsAmount(s, minus, w, f);
    }
  }

  predicate AllSpace(s: string) { forall i :: 0 <= i < |s| ==> IsSpace(s[i]) }

  lemma {:induction false} TrimsStart(a: string, s: string)
    requires AllSpace(a) && (s != [] ==> !IsSpace(s[0]))
    ensures TrimStart(a + s) == s
  {
    if a == [] {
      assert a + s == s;
    } else {
      TrimsStart(a[1..], s);
      assert (a + s)[0] == a[0] && (a + s)[1..] == a[1..] + s;
    }
  }

  lemma {:induction false} TrimsEnd(s: string, b: string)
    requires AllSpace(b) && (s != [] ==> !IsSpace(s[|s| - 1]))
    ensures TrimEnd(s + b) == s
  {
    if b == [] {
      assert s + b == s;
    } else {
      var n := |b| - 1;
      TrimsEnd(s, b[..n]);
      assert (s + b)[|s + b| - 1] == b[n] && (s + b)[..|s + b| - 1] == s + b[..n];
    }
  }

  /** Trimming takes exactly the white space around a text. */
  lemma TrimTakesSpaces(a: string, s: string, b: string)
    requires AllSpace(a) && AllSpace(b) && s != [] && !IsSpace(s[0]) && !IsSpace(s[|s| - 1])
    ensures Trim(a + s + b) == s
  {
    assert a + s + b == a + (s + b) && (s + b)[0] == s[0];
    TrimsStart(a, s + b);
    TrimsEnd(s, b);
  }

  // ----- The browser's printer -----

  datatype Parts = Parts(negative: bool, rupees: string, paise: string)

  function SplitPaise(text: string): Option<Parts> {
    var s := Trim(text);
    var negative := s != [] && s[0] == '-';
    var digits := if negative then s[1..] else s;
    if digits == [] || !IsDigits(digits) then None
    else
      var padded := PadStart(digits, 3);
      var cut := if |padded| < 2 then 0 else |padded| - 2;
      Some(Parts(negative, StripZeros(padded[..cut]), padded[cut..]))
  }

  const UNAVAILABLE := "\U{2014}"

  function FormatPaise(text: string): string {
    match SplitPaise(text)
    case None => UNAVAILABLE
    case Some(parts) => Sign(parts.negative) + GroupIndian(parts.rupees) + "." + parts.paise
  }

  /** An integer as its text arrives from the server. */
  function Decimal(n: int): string { Sign(n < 0) + Digits(Abs(n)) }

  lemma TwoDigitsSplit(high: string, low: string)
    requires IsDigits(high) && IsDigits(low) && |low| == 2
    ensures IsDigits(high + low)
    ensures Value(high + low) / PAISE_PER_RUPEE == Value(high) && Value(high + low) % PAISE_PER_RUPEE == Value(low) < 100
  {
    hide Value;
    ValueSplits(high, low);
    ValueBounds(low);
    assert Pow10(0) == 1 && Pow10(1) == 10 && Pow10(2) == 100;
  }

  lemma SplitsAtPaise(digits: string)
    requires digits != [] && IsDigits(digits)
    ensures var padded := PadStart(digits, 3);
      |padded| >= 3
      && StripZeros(padded[..|padded| - 2]) == Digits(Value(digits) / PAISE_PER_RUPEE)
      && padded[|padded| - 2..] == PaiseOf(Value(digits) % PAISE_PER_RUPEE)
  {
    hide PadStart, StripZeros, Value, PaiseOf, Digits;
    PaddingKeepsValue(digits, 3);
    var padded := PadStart(digits, 3);
    var cut := |padded| - 2;
    var high, low := padded[..cut], padded[cut..];
    assert padded == high + low;
    TwoDigitsSplit(high, low);
    StripKeepsValue(high);
    CanonicalDigits(StripZeros(high));
    PaiseText(Value(low));
    SameLengthSameValue(low, PaiseOf(Value(low)));
  }

  /** The integer a paise text stands for. */
  function PaiseValue(text: string): Option<int> {
    var s := Trim(text);
    var negative := s != [] && s[0] == '-';
    var digits := if negative then s[1..] else s;
    if digits == [] || !IsDigits(digits) then None
    else Some(Signed(negative, Value(digits)))
  }

  /** The browser renders every text that is an integer as the server prints that integer, except that it
      keeps the sign of a negative zero; it renders anything else as unavailable. */
  lemma BrowserPrintsAsServer(text: string)
    ensures SplitPaise(text).None? <==> PaiseValue(text).None?
    ensures PaiseValue(text).Some? ==>
      var n := PaiseValue(text).value;
      if n == 0 && Trim(text)[..1] == "-" then FormatPaise(text) == "-" + ToRupeesString(0, true)
      else FormatPaise(text) == ToRupeesString(n, true)
  {
    hide Trim, StripZeros, GroupIndian, ToRupeesString, PadStart, Value, Digits, PaiseOf;
    var s := Trim(text);
    if PaiseValue(text).Some? {
      var negative := s[0] == '-';
      var digits := if negative then s[1..] else s;
      SplitsAtPaise(digits);
      SignedAlike(negative, Value(digits));
      assert s[..1] == "-" <==> s[0] == '-' by { assert s[..1] == [s[0]]; }
    }
  }

  lemma SignedAlike(negative: bool, n: nat)
    ensures var text := Sign(negative) + GroupIndian(Digits(n / PAISE_PER_RUPEE)) + "." + PaiseOf(n % PAISE_PER_RUPEE);
      text == if n == 0 && negative then "-" + ToRupeesString(0, true)
              else ToRupeesString(Signed(negative, n), true)
  {
  }

  /** The integer the server sends comes out as the server would print it. */
  lemma BrowserAgreesWithServer(paise: int)
    ensures FormatPaise(Decimal(paise)) == ToRupeesString(paise, true)
  {
    hide FormatPaise, ToRupeesString, Trim, Digits, Value;
    DigitsRoundTrip(Abs(paise));
    DecimalIsTrimmed(paise);
    var text, digits := Decimal(paise), Digits(Abs(paise));
    assert if paise < 0 then text[0] == '-' && text[1..] == digits else text == digits && text[0] != '-';
    assert text[..1] == "-" <==> text[0] == '-' by { assert text[..1] == [text[0]]; }
    BrowserPrintsAsServer(text);
  }

  lemma DecimalIsTrimmed(paise: int)
    ensures Trim(Decimal(paise)) == Decimal(paise)
  {
    hide Digits;
    var digits := Digits(Abs(paise));
    DigitsRoundTrip(Abs(paise));
    var text := Decimal(paise);
    assert text[0] == (if paise < 0 then '-' else digits[0]) && text[|text| - 1] == digits[|digits| - 1];
    TrimIdentity(text);
  }

  // ----- Rule amounts -----

  function MilliPaiseToRupeeString(value: int): string {
    var absolute := Abs(value);
    Sign(value < 0) + Digits(absolute / (100 * RATE_SCALE)) + "."
    + PadStart(Digits(absolute % (100 * RATE_SCALE) / RATE_SCALE), 2)
  }

  function RupeeStringToMilliPaise(text: string): Result<int, MoneyError> {
    var paise :- FromRupees(text);
    Success(paise * RATE_SCALE)
  }

  /** A stored rule amount shown as rupees and sent back loses what is below a paisa, toward zero; so it
      survives exactly when it is a multiple of 1000. */
  lemma RuleAmountSurvivesExactlyWhen(value: int)
    ensures RupeeStringToMilliPaise(MilliPaiseToRupeeString(value)) == Success(TruncDiv(value, 1000) * 1000)
    ensures RupeeStringToMilliPaise(MilliPaiseToRupeeString(value)) == Success(value) <==> value % 1000 == 0
  {
    hide FromRupees, Digits, PadStart, RemoveCommas;
    var n := Abs(value);
    var whole, fraction := n / 100_000, n % 100_000 / 1000;
    DigitsRoundTrip(whole);
    PaiseText(fraction);
    NoCommas(Digits(whole));
    AmountParses(value < 0, Digits(whole), Digits(whole), PaiseOf(fraction));
    WholePaise(value);
  }

  lemma WholePaise(value: int)
    ensures var n := Abs(value);
      Signed(value < 0, n / 100_000 * 100 + n % 100_000 / 1000) == TruncDiv(value, 1000)
    ensures TruncDiv(value, 1000) * 1000 == value <==> value % 1000 == 0
  {
    var n := Abs(value);
    assert n / 100_000 * 100 + n % 100_000 / 1000 == n / 1000;
  }

  /** A whole number of paise is shown as the rupee printer shows it. */
  lemma RuleAmountIsPrintedAsRupees(value: int)
    requires value % 1000 == 0
    ensures MilliPaiseToRupeeString(value) == ToRupeesString(value / 1000, false)
  {
    var n := Abs(value);
    assert n / 1000 == Abs(value / 1000) && n / 100_000 == n / 1000 / 100 && n % 100_000 / 1000 == n / 1000 % 100;
  }

  // ----- Quotes -----

  function RateFromRupeesPerUnit(text: string, unit: DisplayUnit): Result<int, MoneyError> {
    var paise :- FromRupees(text);
    if TruncMod(paise * RATE_SCALE, Grams(unit)) != 0 then Failure(NotRepresentable)
    else Success(TruncDiv(paise * RATE_SCALE, Grams(unit)))
  }

  function RateToDisplayPaise(rate: int, unit: DisplayUnit, mode: RoundingMode): Result<int, MoneyError> {
    DivideAndRound(rate * Grams(unit), RATE_SCALE, mode)
  }

  /** A quote in any display unit converts to the stored rate without remainder, and is shown in that unit
      as quoted, in every rounding mode. */
  lemma QuoteRoundTrip(text: string, unit: DisplayUnit, mode: RoundingMode)
    ensures RateFromRupeesPerUnit(text, unit).Success? <==> FromRupees(text).Success?
    ensures FromRupees(text).Success? ==>
      RateToDisplayPaise(RateFromRupeesPerUnit(text, unit).value, unit, mode) == Success(FromRupees(text).value)
  {
    hide FromRupees, DivideAndRound;
    if FromRupees(text).Success? {
      var paise := FromRupees(text).value;
      PerUnit(paise, unit);
      ExactDivision(paise, mode);
    }
  }

  lemma PerUnit(paise: int, unit: DisplayUnit)
    ensures TruncMod(paise * RATE_SCALE, Grams(unit)) == 0
    ensures TruncDiv(paise * RATE_SCALE, Grams(unit)) * Grams(unit) == paise * RATE_SCALE
  {
    var n := Abs(paise);
    assert Abs(paise * 1000) == n * 1000;
    match unit
    case PerGram => assert n * 1000 / 1 == n * 1000;
    case PerTenGram => assert n * 1000 / 10 == n * 100;
    case PerKilogram => assert n * 1000 / 1000 == n;
  }

  lemma ExactDivision(q: int, mode: RoundingMode)
    ensures DivideAndRound(q * 1000, 1000, mode) == Success(q)
  {
    hide Settle;
    var n := Abs(q);
    assert Abs(q * 1000) == n * 1000 && n * 1000 / 1000 == n;
    assert TruncDiv(q * 1000, 1000) == q && TruncMod(q * 1000, 1000) == 0;
    SettleExact(q * 1000 < 0, q, mode);
  }

  lemma SettleExact(isNegative: bool, q: int, mode: RoundingMode)
    ensures Settle(isNegative, q, 0, 1000, mode) == q
  {
  }
}
