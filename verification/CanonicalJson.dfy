/**
 * The canonical printer behind request fingerprints.
 *
 * Strings are sequences of UTF-16 code units, printed as `JSON.stringify` prints them (section 7 of
 * RFC 8259, unpaired surrogates escaped). A number is represented by its printed text.
 */
module CanonicalJson {
  import opened Outcomes

  type CodeUnit = x: int | 0 <= x < 0x1_0000
  type Text = seq<CodeUnit>

  const BACKSPACE: CodeUnit := 8
  const TAB: CodeUnit := 9
  const NEWLINE: CodeUnit := 10
  const FORM_FEED: CodeUnit := 12
  const RETURN: CodeUnit := 13
  const QUOTE: CodeUnit := 34
  const COMMA: CodeUnit := 44
  const COLON: CodeUnit := 58
  const LEFT_BRACKET: CodeUnit := 91
  const BACKSLASH: CodeUnit := 92
  const RIGHT_BRACKET: CodeUnit := 93
  const LETTER_U: CodeUnit := 117
  const LEFT_BRACE: CodeUnit := 123
  const RIGHT_BRACE: CodeUnit := 125

  const NULL_TEXT: Text := [110, 117, 108, 108]
  const TRUE_TEXT: Text := [116, 114, 117, 101]
  const FALSE_TEXT: Text := [102, 97, 108, 115, 101]

  datatype Json =
    | Undefined
    | Null
    | Bool(value: bool)
    | Num(text: Text)
    | Str(s: Text)
    | Arr(items: seq<Json>)
    | Obj(entries: seq<Entry>)

  datatype Entry = Entry(key: Text, value: Json)

  predicate NumberUnit(c: CodeUnit) {
    48 <= c <= 57 || c == 43 || c == 45 || c == 46 || c == 69 || c == 101
  }

  /** A finite number's text starts with a digit or a minus sign and has no delimiter in it. */
  predicate NumberText(t: Text) {
    t != [] && (48 <= t[0] <= 57 || t[0] == 45) && forall i :: 0 <= i < |t| ==> NumberUnit(t[i])
  }

  predicate DistinctKeys(entries: seq<Entry>) {
    forall i, j :: 0 <= i < j < |entries| ==> entries[i].key != entries[j].key
  }

  /** A JavaScript value made of JSON parts: an object holds each key once. */
  predicate Proper(v: Json) {
    match v
    case Num(t) => NumberText(t)
    case Arr(items) => forall i :: 0 <= i < |items| ==> Proper(items[i])
    case Obj(entries) => DistinctKeys(entries) && forall i :: 0 <= i < |entries| ==> Proper(entries[i].value)
    case _ => true
  }

  // ----- Strings -----

  function Hex(digit: int): CodeUnit
    requires 0 <= digit < 16
  {
    if digit < 10 then 48 + digit else 87 + digit
  }

  function UnicodeEscape(c: CodeUnit): Text {
    [BACKSLASH, LETTER_U, Hex(c / 16 / 16 / 16), Hex(c / 16 / 16 % 16), Hex(c / 16 % 16), Hex(c % 16)]
  }

  predicate IsHigh(c: CodeUnit) { 0xD800 <= c <= 0xDBFF }
  predicate IsLow(c: CodeUnit) { 0xDC00 <= c <= 0xDFFF }

  function EscapeUnit(c: CodeUnit): Text {
    if c == QUOTE || c == BACKSLASH then [BACKSLASH, c]
    else if c == BACKSPACE then [BACKSLASH, 98]
    else if c == FORM_FEED then [BACKSLASH, 102]
    else if c == NEWLINE then [BACKSLASH, 110]
    else if c == RETURN then [BACKSLASH, 114]
    else if c == TAB then [BACKSLASH, 116]
    else if c < 32 || IsHigh(c) || IsLow(c) then UnicodeEscape(c)
    else [c]
  }

  /** A surrogate pair is printed as it is, a lone surrogate escaped. */
  function Escape(s: Text): Text {
    if s == [] then []
    else if |s| >= 2 && IsHigh(s[0]) && IsLow(s[1]) then s[..2] + Escape(s[2..])
    else EscapeUnit(s[0]) + Escape(s[1..])
  }

  function Quote(s: Text): Text { [QUOTE] + Escape(s) + [QUOTE] }

  function HexValue(c: CodeUnit): Option<int> {
    if 48 <= c <= 57 then Some(c - 48) else if 97 <= c <= 102 then Some(c - 87) else None
  }

  function Unhex(a: CodeUnit, b: CodeUnit, c: CodeUnit, d: CodeUnit): Option<CodeUnit> {
    match (HexValue(a), HexValue(b), HexValue(c), HexValue(d))
    case (Some(w), Some(x), Some(y), Some(z)) =>
      if 0 <= w * 4096 + x * 256 + y * 16 + z < 0x1_0000 then Some(w * 4096 + x * 256 + y * 16 + z) else None
    case _ => None
  }

  function Unescaped(c: CodeUnit): Option<CodeUnit> {
    if c == QUOTE || c == BACKSLASH then Some(c)
    else if c == 98 then Some(BACKSPACE)
    else if c == 102 then Some(FORM_FEED)
    else if c == 110 then Some(NEWLINE)
    else if c == 114 then Some(RETURN)
    else if c == 116 then Some(TAB)
    else None
  }

  datatype Read = Read(s: Text, rest: Text)

  function Cons(c: CodeUnit, r: Option<Read>): Option<Read> {
    match r
    case None => None
    case Some(read) => Some(Read([c] + read.s, read.rest))
  }

  /** A reader of string literals, from after the opening quote to after the closing one. */
  function ReadString(t: Text): Option<Read> {
    if t == [] then None
    else if t[0] == QUOTE then Some(Read([], t[1..]))
    else if t[0] != BACKSLASH then Cons(t[0], ReadString(t[1..]))
    else if |t| >= 6 && t[1] == LETTER_U then
      match Unhex(t[2], t[3], t[4], t[5])
      case None => None
      case Some(c) => Cons(c, ReadString(t[6..]))
    else if |t| >= 2 then
      match Unescaped(t[1])
      case None => None
      case Some(c) => Cons(c, ReadString(t[2..]))
    else None
  }

  lemma DigitRoundTrip(digit: int)
    requires 0 <= digit < 16
    ensures HexValue(Hex(digit)) == Some(digit)
  {
  }

  lemma HexRoundTrip(c: CodeUnit)
    ensures Unhex(Hex(c / 16 / 16 / 16), Hex(c / 16 / 16 % 16), Hex(c / 16 % 16), Hex(c % 16)) == Some(c)
  {
    hide Hex, HexValue;
    var a, b := c / 16, c / 16 / 16;
    assert c == a * 16 + c % 16 && a == b * 16 + a % 16 && b == b / 16 * 16 + b % 16;
    DigitRoundTrip(b / 16);
    DigitRoundTrip(b % 16);
    DigitRoundTrip(a % 16);
    DigitRoundTrip(c % 16);
  }

  lemma RawRead(c: CodeUnit, t: Text)
    requires c != QUOTE && c != BACKSLASH
    ensures ReadString([c] + t) == Cons(c, ReadString(t))
  {
    assert ([c] + t)[1..] == t;
  }

  lemma ShortRead(letter: CodeUnit, c: CodeUnit, t: Text)
    requires Unescaped(letter) == Some(c) && letter != LETTER_U
    ensures ReadString([BACKSLASH, letter] + t) == Cons(c, ReadString(t))
  {
    assert ([BACKSLASH, letter] + t)[2..] == t;
  }

  lemma UnicodeRead(c: CodeUnit, t: Text)
    ensures ReadString(UnicodeEscape(c) + t) == Cons(c, ReadString(t))
  {
    hide Hex, Unhex, Unescaped;
    HexRoundTrip(c);
    assert (UnicodeEscape(c) + t)[6..] == t;
  }

  lemma UnitRoundTrip(c: CodeUnit, t: Text)
    ensures ReadString(EscapeUnit(c) + t) == Cons(c, ReadString(t))
  {
    hide ReadString, Hex;
    var e := EscapeUnit(c);
    if |e| == 1 {
      RawRead(c, t);
    } else if e == UnicodeEscape(c) {
      UnicodeRead(c, t);
    } else {
      ShortRead(e[1], c, t);
    }
  }

  function Closed(s: Text, rest: Text): Text { Escape(s) + ([QUOTE] + rest) }

  lemma PairRead(a: CodeUnit, b: CodeUnit, t: Text)
    requires IsHigh(a) && IsLow(b)
    ensures ReadString([a, b] + t) == Cons(a, Cons(b, ReadString(t)))
  {
    RawRead(b, t);
    RawRead(a, [b] + t);
    assert [a, b] + t == [a] + ([b] + t);
  }

  lemma ClosedSplits(s: Text, rest: Text)
    requires s != []
    ensures if |s| >= 2 && IsHigh(s[0]) && IsLow(s[1]) then Closed(s, rest) == [s[0], s[1]] + Closed(s[2..], rest)
      else Closed(s, rest) == EscapeUnit(s[0]) + Closed(s[1..], rest)
  {
    hide EscapeUnit;
    if |s| >= 2 && IsHigh(s[0]) && IsLow(s[1]) {
      assert s[..2] == [s[0], s[1]];
      assert Escape(s) == [s[0], s[1]] + Escape(s[2..]);
      Associates([s[0], s[1]], Escape(s[2..]), [QUOTE] + rest);
    } else {
      assert Escape(s) == EscapeUnit(s[0]) + Escape(s[1..]);
      Associates(EscapeUnit(s[0]), Escape(s[1..]), [QUOTE] + rest);
    }
  }

  lemma Associates(a: Text, b: Text, c: Text)
    ensures (a + b) + c == a + (b + c)
  {
  }

  /** The reader gives back every string that was printed, and stops at its closing quote. */
  lemma {:induction false} StringRoundTrip(s: Text, rest: Text)
    ensures ReadString(Closed(s, rest)) == Some(Read(s, rest))
  {
    if s == [] {
      assert Closed(s, rest) == [QUOTE] + rest;
    } else {
      hide ReadString, EscapeUnit, Closed, Escape;
      ClosedSplits(s, rest);
      if |s| >= 2 && IsHigh(s[0]) && IsLow(s[1]) {
        StringRoundTrip(s[2..], rest);
        PairRead(s[0], s[1], Closed(s[2..], rest));
        assert s == [s[0]] + ([s[1]] + s[2..]);
      } else {
        StringRoundTrip(s[1..], rest);
        UnitRoundTrip(s[0], Closed(s[1..], rest));
        assert s == [s[0]] + s[1..];
      }
    }
  }

  lemma QuotedIsClosed(s: Text, rest: Text)
    ensures Quote(s) + rest == [QUOTE] + Closed(s, rest) && (Quote(s) + rest)[1..] == Closed(s, rest)
  {
    hide Escape;
    assert Quote(s) + rest == [QUOTE] + Closed(s, rest);
  }

  /** A printed string tells both itself and where it ends. */
  lemma QuotedIsReadable(s: Text, t: Text, r: Text, r': Text)
    requires Quote(s) + r == Quote(t) + r'
    ensures s == t && r == r'
  {
    hide Quote, Closed, ReadString;
    QuotedIsClosed(s, r);
    QuotedIsClosed(t, r');
    StringRoundTrip(s, r);
    StringRoundTrip(t, r');
  }

  /** A unit that stands for itself in a printed string. */
  predicate Plain(c: CodeUnit) { c >= 32 && c != QUOTE && c != BACKSLASH && !IsHigh(c) && !IsLow(c) }

  /** Nothing is escaped that need not be. */
  lemma {:induction false} PlainTextIsPrintedAsIs(s: Text)
    requires forall i :: 0 <= i < |s| ==> Plain(s[i])
    ensures Quote(s) == [QUOTE] + s + [QUOTE]
  {
    PlainEscapesToItself(s);
  }

  lemma {:induction false} PlainEscapesToItself(s: Text)
    requires forall i :: 0 <= i < |s| ==> Plain(s[i])
    ensures Escape(s) == s
  {
    if s != [] {
      PlainEscapesToItself(s[1..]);
      assert s == [s[0]] + s[1..];
    }
  }

  lemma UnitHasNoControl(c: CodeUnit)
    ensures forall i :: 0 <= i < |EscapeUnit(c)| ==> EscapeUnit(c)[i] >= 32
  {
  }

  /** A printed string has no control unit in it. */
  lemma {:induction false} NoControlIsPrinted(s: Text)
    ensures forall i :: 0 <= i < |Escape(s)| ==> Escape(s)[i] >= 32
  {
    if s != [] {
      hide EscapeUnit;
      UnitHasNoControl(s[0]);
      if |s| >= 2 && IsHigh(s[0]) && IsLow(s[1]) {
        NoControlIsPrinted(s[2..]);
      } else {
        NoControlIsPrinted(s[1..]);
      }
    }
  }

  // ----- The order of keys -----

  /** JavaScript's `<` on strings. */
  predicate Less(a: Text, b: Text) {
    if b == [] then false
    else if a == [] then true
    else a[0] < b[0] || (a[0] == b[0] && Less(a[1..], b[1..]))
  }

  lemma LessIsTotal(a: Text, b: Text)
    ensures a == b || Less(a, b) || Less(b, a)
    ensures !(Less(a, b) && Less(b, a)) && !Less(a, a)
  {
    if a != [] && b != [] && a[0] == b[0] {
      LessIsTotal(a[1..], b[1..]);
      assert a == [a[0]] + a[1..] && b == [b[0]] + b[1..];
    }
    if a != [] {
      LessIsTotal(a[1..], a[1..]);
    }
  }

  lemma LessTransitive(a: Text, b: Text, c: Text)
    requires Less(a, b) && Less(b, c)
    ensures Less(a, c)
  {
    if a != [] && a[0] == b[0] && b[0] == c[0] {
      LessTransitive(a[1..], b[1..], c[1..]);
    }
  }

  /** The order is that of the first unit in which two texts differ, a text coming before its continuations. */
  lemma {:induction false} LessIsLexicographic(a: Text, b: Text)
    ensures Less(a, b) <==> exists k :: 0 <= k <= |a| && k < |b| && a[..k] == b[..k] && (k == |a| || a[k] < b[k])
  {
    if a != [] && b != [] && a[0] == b[0] {
      LessIsLexicographic(a[1..], b[1..]);
      if k :| 0 <= k <= |a[1..]| && k < |b[1..]| && a[1..][..k] == b[1..][..k] && (k == |a[1..]| || a[1..][k] < b[1..][k]) {
        assert a[..k + 1] == [a[0]] + a[1..][..k] && b[..k + 1] == [b[0]] + b[1..][..k];
        FirstDifference(a, b, k + 1);
      }
      if k :| 0 <= k <= |a| && k < |b| && a[..k] == b[..k] && (k == |a| || a[k] < b[k]) {
        assert k > 0;
        assert a[1..][..k - 1] == a[..k][1..] && b[1..][..k - 1] == b[..k][1..];
        FirstDifference(a[1..], b[1..], k - 1);
      }
    } else if b != [] {
      assert a[..0] == b[..0];
      assert forall k :: 0 < k <= |a| && k < |b| ==> a[..k][0] == a[0] && b[..k][0] == b[0];
    }
  }

  lemma FirstDifference(a: Text, b: Text, k: int)
    requires 0 <= k <= |a| && k < |b| && a[..k] == b[..k] && (k == |a| || a[k] < b[k])
    ensures exists k :: 0 <= k <= |a| && k < |b| && a[..k] == b[..k] && (k == |a| || a[k] < b[k])
  {
  }

  /** The members of an object are printed in increasing order of their keys. */
  lemma KeysArePrintedInOrder(entries: seq<Entry>, i: nat, j: nat)
    requires DistinctKeys(entries) && i < j < |Ordered(entries)|
    ensures Less(Ordered(entries)[i].key, Ordered(entries)[j].key)
  {
    OrderedIsIncreasing(entries);
    var keys := KeysOf(Ordered(entries));
    assert Less(keys[i], keys[j]);
  }

  function Insert(e: Entry, entries: seq<Entry>): (r: seq<Entry>)
    ensures multiset(r) == multiset(entries) + multiset{e}
  {
    if entries == [] then [e]
    else if Less(e.key, entries[0].key) then [e] + entries
    else
      assert entries == [entries[0]] + entries[1..];
      [entries[0]] + Insert(e, entries[1..])
  }

  function SortByKey(entries: seq<Entry>): (r: seq<Entry>)
    ensures multiset(r) == multiset(entries)
  {
    if entries == [] then []
    else
      var n := |entries| - 1;
      assert entries == entries[..n] + [entries[n]];
      Insert(entries[n], SortByKey(entries[..n]))
  }

  /** The entries whose value is not `undefined`, in their order. */
  function Defined(entries: seq<Entry>): (r: seq<Entry>)
    ensures forall e :: e in r <==> e in entries && !e.value.Undefined?
  {
    if entries == [] then []
    else (if entries[0].value.Undefined? then [] else [entries[0]]) + Defined(entries[1..])
  }

  function Ordered(entries: seq<Entry>): (r: seq<Entry>)
    ensures forall e :: e in r <==> e in entries && !e.value.Undefined?
  {
    var r := SortByKey(Defined(entries));
    assert forall e :: e in r <==> e in multiset(r);
    r
  }

  // ----- The printer -----

  function Join(parts: seq<Text>): Text {
    if parts == [] then []
    else if |parts| == 1 then parts[0]
    else parts[0] + [COMMA] + Join(parts[1..])
  }

  function Canonical(v: Json): Text {
    match v
    case Undefined => NULL_TEXT
    case Null => NULL_TEXT
    case Bool(b) => if b then TRUE_TEXT else FALSE_TEXT
    case Num(t) => t
    case Str(s) => Quote(s)
    case Arr(items) =>
      [LEFT_BRACKET] + Join(seq(|items|, i requires 0 <= i < |items| => Canonical(items[i]))) + [RIGHT_BRACKET]
    case Obj(entries) =>
      var es := Ordered(entries);
      [LEFT_BRACE]
      + Join(seq(|es|, i requires 0 <= i < |es| =>
          assert es[i] in entries; Quote(es[i].key) + [COLON] + Canonical(es[i].value)))
      + [RIGHT_BRACE]
  }

  // ----- What equal text means -----

  /** Equal up to the order of object keys, at every depth. An `undefined` member is no member, and any
      other `undefined` is a null. */
  ghost predicate Equivalent(v: Json, w: Json) {
    match v
    case Undefined => w.Undefined? || w.Null?
    case Null => w.Undefined? || w.Null?
    case Bool(b) => w == Bool(b)
    case Num(t) => w == Num(t)
    case Str(s) => w == Str(s)
    case Arr(items) =>
      w.Arr? && |w.items| == |items| && forall i :: 0 <= i < |items| ==> Equivalent(items[i], w.items[i])
    case Obj(entries) =>
      w.Obj?
      && (forall i :: 0 <= i < |entries| && !entries[i].value.Undefined? ==> Matched(entries[i], w.entries))
      && (forall j :: 0 <= j < |w.entries| && !w.entries[j].value.Undefined? ==> HasKey(entries, w.entries[j].key))
  }

  ghost predicate Matched(e: Entry, fs: seq<Entry>) {
    exists j ::
      0 <= j < |fs| && !fs[j].value.Undefined? && fs[j].key == e.key && Equivalent(e.value, fs[j].value)
  }

  predicate HasKey(es: seq<Entry>, key: Text) {
    exists i :: 0 <= i < |es| && !es[i].value.Undefined? && es[i].key == key
  }

  /** Nothing follows, or a delimiter does. */
  predicate Ending(r: Text) {
    r != [] ==> r[0] == COMMA || r[0] == RIGHT_BRACKET || r[0] == RIGHT_BRACE
  }

  /** The first unit of a printed value tells what kind of value it is. */
  function Kind(v: Json): int {
    match v
    case Undefined => 0
    case Null => 0
    case Bool(b) => if b then 1 else 2
    case Num(_) => 3
    case Str(_) => 4
    case Arr(_) => 5
    case Obj(_) => 6
  }

  function KindOfUnit(c: CodeUnit): int {
    if c == 110 then 0 else if c == 116 then 1 else if c == 102 then 2 else if c == QUOTE then 4
    else if c == LEFT_BRACKET then 5 else if c == LEFT_BRACE then 6 else if c == RIGHT_BRACKET then 7 else 3
  }

  lemma FirstUnit(v: Json)
    requires Proper(v)
    ensures Canonical(v) != [] && KindOfUnit(Canonical(v)[0]) == Kind(v)
  {
    hide Join, Ordered, Escape;
  }

  lemma SameKind(v: Json, w: Json, r: Text, r': Text)
    requires Proper(v) && Proper(w) && Canonical(v) + r == Canonical(w) + r'
    ensures Kind(v) == Kind(w)
  {
    hide Canonical, Proper, Kind, KindOfUnit;
    FirstUnit(v);
    FirstUnit(w);
    assert Canonical(v)[0] == (Canonical(v) + r)[0] && Canonical(w)[0] == (Canonical(w) + r')[0];
  }

  lemma NumberNoLonger(t: Text, u: Text, r: Text, r': Text)
    requires NumberText(u) && Ending(r) && t + r == u + r'
    ensures |u| <= |t|
  {
    var s := t + r;
    assert forall i :: 0 <= i < |u| ==> s[i] == u[i] && NumberUnit(s[i]);
    assert r != [] ==> s[|t|] == r[0] && !NumberUnit(s[|t|]);
  }

  lemma NumberIsReadable(t: Text, u: Text, r: Text, r': Text)
    requires NumberText(t) && NumberText(u) && Ending(r) && Ending(r') && t + r == u + r'
    ensures t == u && r == r'
  {
    NumberNoLonger(t, u, r, r');
    NumberNoLonger(u, t, r', r);
    SamePrefix(t, u, r, r');
  }

  lemma SamePrefix(t: Text, u: Text, r: Text, r': Text)
    requires t + r == u + r' && |t| == |u|
    ensures t == u && r == r'
  {
    assert t == (t + r)[..|t|] && r == (t + r)[|t|..];
    assert u == (u + r')[..|u|] && r' == (u + r')[|u|..];
  }

  // ----- Lists of parts -----

  function ItemTexts(items: seq<Json>): seq<Text> { seq(|items|, i requires 0 <= i < |items| => Canonical(items[i])) }

  function MemberText(e: Entry): Text { Quote(e.key) + [COLON] + Canonical(e.value) }

  function MemberTexts(es: seq<Entry>): seq<Text> { seq(|es|, i requires 0 <= i < |es| => MemberText(es[i])) }

  lemma ArrayText(items: seq<Json>)
    ensures Canonical(Arr(items)) == [LEFT_BRACKET] + Join(ItemTexts(items)) + [RIGHT_BRACKET]
  {
    assert ItemTexts(items) == seq(|items|, i requires 0 <= i < |items| => Canonical(items[i]));
  }

  lemma ObjectText(entries: seq<Entry>)
    ensures Canonical(Obj(entries)) == [LEFT_BRACE] + Join(MemberTexts(Ordered(entries))) + [RIGHT_BRACE]
  {
    var es := Ordered(entries);
    assert MemberTexts(es) == seq(|es|, i requires 0 <= i < |es| =>
      assert es[i] in entries; Quote(es[i].key) + [COLON] + Canonical(es[i].value));
  }

  /** The parts from `k` on, a closing delimiter and what follows. */
  function Listed(parts: seq<Text>, k: nat, close: CodeUnit, r: Text): Text
    requires k <= |parts|
  {
    Join(parts[k..]) + ([close] + r)
  }

  /** What stands after part `k`: the rest of the list or its end. */
  function AfterPart(parts: seq<Text>, k: nat, close: CodeUnit, r: Text): Text
    requires k < |parts|
  {
    if k == |parts| - 1 then [close] + r else [COMMA] + Listed(parts, k + 1, close, r)
  }

  lemma ListedSplits(parts: seq<Text>, k: nat, close: CodeUnit, r: Text)
    requires k < |parts|
    ensures Listed(parts, k, close, r) == parts[k] + AfterPart(parts, k, close, r)
  {
    var rest := parts[k..];
    assert rest[0] == parts[k] && rest[1..] == parts[k + 1..];
    if k < |parts| - 1 {
      assert Join(rest) == parts[k] + [COMMA] + Join(parts[k + 1..]);
    }
  }

  lemma ListedEnds(parts: seq<Text>, close: CodeUnit, r: Text)
    ensures Listed(parts, |parts|, close, r) == [close] + r
  {
    assert Join(parts[|parts|..]) == [];
  }

  lemma AfterPartTells(parts: seq<Text>, parts': seq<Text>, k: nat, close: CodeUnit, r: Text, r': Text)
    requires k < |parts| && k < |parts'| && close != COMMA
    requires AfterPart(parts, k, close, r) == AfterPart(parts', k, close, r')
    ensures (k == |parts| - 1) == (k == |parts'| - 1)
    ensures k == |parts| - 1 ==> r == r'
    ensures k < |parts| - 1 ==> k < |parts'| - 1 && Listed(parts, k + 1, close, r) == Listed(parts', k + 1, close, r')
  {
    hide Join;
    var a, a' := AfterPart(parts, k, close, r), AfterPart(parts', k, close, r');
    assert a[0] == a'[0] && a[1..] == a'[1..];
    assert k == |parts| - 1 ==> a[0] == close && a[1..] == r;
    assert k == |parts'| - 1 ==> a'[0] == close && a'[1..] == r';
  }

  lemma AfterPartEnds(parts: seq<Text>, k: nat, close: CodeUnit, r: Text)
    requires k < |parts| && (close == RIGHT_BRACKET || close == RIGHT_BRACE)
    ensures Ending(AfterPart(parts, k, close, r))
  {
    hide Join;
  }

  // ----- Unique readability -----

  /** Text of a value, followed by an ending, tells the value up to key order and where it stopped. */
  lemma {:induction false} Readable(v: Json, w: Json, r: Text, r': Text)
    requires Proper(v) && Proper(w) && Ending(r) && Ending(r') && Canonical(v) + r == Canonical(w) + r'
    ensures Equivalent(v, w) && r == r'
    decreases v, 2, 0
  {
    SameKind(v, w, r, r');
    match v
    case Num(t) => NumberIsReadable(t, w.text, r, r');
    case Str(s) => QuotedIsReadable(s, w.s, r, r');
    case Arr(items) => ReadableArrays(v, w, r, r');
    case Obj(entries) => ReadableObjects(v, w, r, r');
    case _ => SamePrefix(Canonical(v), Canonical(w), r, r');
  }

  lemma {:induction false} ReadableArrays(v: Json, w: Json, r: Text, r': Text)
    requires v.Arr? && w.Arr? && Proper(v) && Proper(w) && Canonical(v) + r == Canonical(w) + r'
    ensures Equivalent(v, w) && r == r'
    decreases v, 1, 0
  {
    var a, b := ItemTexts(v.items), ItemTexts(w.items);
    ArrayText(v.items);
    ArrayText(w.items);
    Opens(Join(a), Join(b), LEFT_BRACKET, RIGHT_BRACKET, r, r');
    assert a[0..] == a && b[0..] == b;
    ReadableItems(v, w, 0, r, r');
  }

  lemma Opens(a: Text, b: Text, open: CodeUnit, close: CodeUnit, r: Text, r': Text)
    requires [open] + a + [close] + r == [open] + b + [close] + r'
    ensures a + ([close] + r) == b + ([close] + r')
  {
    assert a + ([close] + r) == ([open] + a + [close] + r)[1..];
    assert b + ([close] + r') == ([open] + b + [close] + r')[1..];
  }

  lemma {:induction false} ReadableItems(v: Json, w: Json, k: nat, r: Text, r': Text)
    requires v.Arr? && w.Arr? && Proper(v) && Proper(w) && k <= |v.items| && k <= |w.items|
    requires k > 0 ==> k < |v.items| && k < |w.items|
    requires Listed(ItemTexts(v.items), k, RIGHT_BRACKET, r) == Listed(ItemTexts(w.items), k, RIGHT_BRACKET, r')
    ensures |v.items| == |w.items| && r == r'
    ensures forall i :: k <= i < |v.items| ==> Equivalent(v.items[i], w.items[i])
    decreases v, 0, |v.items| - k
  {
    hide Canonical, Equivalent, Join, Listed, AfterPart;
    var a, b := ItemTexts(v.items), ItemTexts(w.items);
    if k == |a| || k == |b| {
      ArraysEndTogether(v, w, r, r');
    } else {
      ListedSplits(a, k, RIGHT_BRACKET, r);
      ListedSplits(b, k, RIGHT_BRACKET, r');
      AfterPartEnds(a, k, RIGHT_BRACKET, r);
      AfterPartEnds(b, k, RIGHT_BRACKET, r');
      Readable(v.items[k], w.items[k], AfterPart(a, k, RIGHT_BRACKET, r), AfterPart(b, k, RIGHT_BRACKET, r'));
      AfterPartTells(a, b, k, RIGHT_BRACKET, r, r');
      if k < |a| - 1 {
        ReadableItems(v, w, k + 1, r, r');
      }
    }
  }

  lemma ArraysEndTogether(v: Json, w: Json, r: Text, r': Text)
    requires v.Arr? && w.Arr? && Proper(v) && Proper(w) && (v.items == [] || w.items == [])
    requires Listed(ItemTexts(v.items), 0, RIGHT_BRACKET, r) == Listed(ItemTexts(w.items), 0, RIGHT_BRACKET, r')
    ensures v.items == w.items == [] && r == r'
  {
    hide Join, Listed, Canonical;
    FirstOfItems(v.items, r);
    FirstOfItems(w.items, r');
    ListedEnds([], RIGHT_BRACKET, r);
    ListedEnds([], RIGHT_BRACKET, r');
    assert ([RIGHT_BRACKET] + r)[1..] == r && ([RIGHT_BRACKET] + r')[1..] == r';
  }

  lemma FirstOfItems(items: seq<Json>, r: Text)
    requires items != [] ==> Proper(items[0])
    ensures var l := Listed(ItemTexts(items), 0, RIGHT_BRACKET, r);
      l != [] && (items == [] <==> l[0] == RIGHT_BRACKET)
  {
    hide Canonical, Join, Listed, AfterPart;
    if items == [] {
      ListedEnds(ItemTexts(items), RIGHT_BRACKET, r);
    } else {
      ListedSplits(ItemTexts(items), 0, RIGHT_BRACKET, r);
      FirstUnit(items[0]);
      assert ItemTexts(items)[0] == Canonical(items[0]);
    }
  }

  lemma {:induction false} ReadableObjects(v: Json, w: Json, r: Text, r': Text)
    requires v.Obj? && w.Obj? && Proper(v) && Proper(w) && Canonical(v) + r == Canonical(w) + r'
    ensures Equivalent(v, w) && r == r'
    decreases v, 1, 0
  {
    var es, fs := Ordered(v.entries), Ordered(w.entries);
    var a, b := MemberTexts(es), MemberTexts(fs);
    ObjectText(v.entries);
    ObjectText(w.entries);
    Opens(Join(a), Join(b), LEFT_BRACE, RIGHT_BRACE, r, r');
    assert a[0..] == a && b[0..] == b;
    ReadableMembers(v, w, 0, r, r');
    SameMembers(v, w);
  }

  /** The members of two objects in key order have the same keys and equivalent values. */
  ghost predicate InStep(es: seq<Entry>, fs: seq<Entry>, k: nat) {
    |es| == |fs|
    && forall i :: k <= i < |es| ==> es[i].key == fs[i].key && Equivalent(es[i].value, fs[i].value)
  }

  lemma InStepMatches(v: Json, w: Json, i: nat)
    requires v.Obj? && w.Obj? && InStep(Ordered(v.entries), Ordered(w.entries), 0)
    requires i < |v.entries| && !v.entries[i].value.Undefined?
    ensures Matched(v.entries[i], w.entries)
  {
    hide Ordered, Equivalent;
    var es, fs := Ordered(v.entries), Ordered(w.entries);
    assert v.entries[i] in es;
    var k :| 0 <= k < |es| && es[k] == v.entries[i];
    assert fs[k] in fs && fs[k] in w.entries;
  }

  lemma InStepHasKey(v: Json, w: Json, j: nat)
    requires v.Obj? && w.Obj? && InStep(Ordered(v.entries), Ordered(w.entries), 0)
    requires j < |w.entries| && !w.entries[j].value.Undefined?
    ensures HasKey(v.entries, w.entries[j].key)
  {
    hide Ordered, Equivalent;
    var es, fs := Ordered(v.entries), Ordered(w.entries);
    assert w.entries[j] in fs;
    var k :| 0 <= k < |fs| && fs[k] == w.entries[j];
    assert es[k] in es && es[k] in v.entries;
  }

  lemma SameMembers(v: Json, w: Json)
    requires v.Obj? && w.Obj? && InStep(Ordered(v.entries), Ordered(w.entries), 0)
    ensures Equivalent(v, w)
  {
    hide Ordered, Equivalent, InStep, Matched, HasKey;
    forall i | 0 <= i < |v.entries| && !v.entries[i].value.Undefined?
      ensures Matched(v.entries[i], w.entries)
    {
      InStepMatches(v, w, i);
    }
    forall j | 0 <= j < |w.entries| && !w.entries[j].value.Undefined?
      ensures HasKey(v.entries, w.entries[j].key)
    {
      InStepHasKey(v, w, j);
    }
    ObjectsEquivalent(v, w);
  }

  lemma ObjectsEquivalent(v: Json, w: Json)
    requires v.Obj? && w.Obj?
    ensures Equivalent(v, w) ==
      ((forall i :: 0 <= i < |v.entries| && !v.entries[i].value.Undefined? ==> Matched(v.entries[i], w.entries))
       && (forall j :: 0 <= j < |w.entries| && !w.entries[j].value.Undefined? ==> HasKey(v.entries, w.entries[j].key)))
  {
    hide Matched, HasKey;
  }

  lemma {:induction false} ReadableMembers(v: Json, w: Json, k: nat, r: Text, r': Text)
    requires v.Obj? && w.Obj? && Proper(v) && Proper(w)
    requires k <= |Ordered(v.entries)| && k <= |Ordered(w.entries)|
    requires k > 0 ==> k < |Ordered(v.entries)| && k < |Ordered(w.entries)|
    requires Listed(MemberTexts(Ordered(v.entries)), k, RIGHT_BRACE, r)
          == Listed(MemberTexts(Ordered(w.entries)), k, RIGHT_BRACE, r')
    ensures InStep(Ordered(v.entries), Ordered(w.entries), k) && r == r'
    decreases v, 0, |Ordered(v.entries)| - k
  {
    hide Canonical, Equivalent, Join, Listed, AfterPart, Ordered, MemberText, Proper, Ending;
    var es, fs := Ordered(v.entries), Ordered(w.entries);
    var a, b := MemberTexts(es), MemberTexts(fs);
    if k == |a| || k == |b| {
      ObjectsEndTogether(es, fs, r, r');
    } else {
      var rest, rest' := AfterPart(a, k, RIGHT_BRACE, r), AfterPart(b, k, RIGHT_BRACE, r');
      MemberAt(es, fs, k, r, r');
      ProperMember(v, es[k]);
      ProperMember(w, fs[k]);
      Readable(es[k].value, fs[k].value, rest, rest');
      AfterPartTells(a, b, k, RIGHT_BRACE, r, r');
      if k < |a| - 1 {
        ReadableMembers(v, w, k + 1, r, r');
      }
    }
  }

  lemma MemberAt(es: seq<Entry>, fs: seq<Entry>, k: nat, r: Text, r': Text)
    requires k < |es| && k < |fs|
    requires Listed(MemberTexts(es), k, RIGHT_BRACE, r) == Listed(MemberTexts(fs), k, RIGHT_BRACE, r')
    ensures var rest := AfterPart(MemberTexts(es), k, RIGHT_BRACE, r);
      var rest' := AfterPart(MemberTexts(fs), k, RIGHT_BRACE, r');
      es[k].key == fs[k].key && Ending(rest) && Ending(rest')
      && Canonical(es[k].value) + rest == Canonical(fs[k].value) + rest'
  {
    hide Canonical, Join, Listed, AfterPart, MemberText;
    var a, b := MemberTexts(es), MemberTexts(fs);
    ListedSplits(a, k, RIGHT_BRACE, r);
    ListedSplits(b, k, RIGHT_BRACE, r');
    AfterPartEnds(a, k, RIGHT_BRACE, r);
    AfterPartEnds(b, k, RIGHT_BRACE, r');
    MemberSplits(es[k], fs[k], AfterPart(a, k, RIGHT_BRACE, r), AfterPart(b, k, RIGHT_BRACE, r'));
  }

  lemma MemberSplits(e: Entry, f: Entry, rest: Text, rest': Text)
    requires MemberText(e) + rest == MemberText(f) + rest'
    ensures e.key == f.key && Canonical(e.value) + rest == Canonical(f.value) + rest'
  {
    hide Canonical, Quote;
    var c, d := Canonical(e.value) + rest, Canonical(f.value) + rest';
    assert MemberText(e) + rest == Quote(e.key) + ([COLON] + c);
    assert MemberText(f) + rest' == Quote(f.key) + ([COLON] + d);
    QuotedIsReadable(e.key, f.key, [COLON] + c, [COLON] + d);
    assert ([COLON] + c)[1..] == c && ([COLON] + d)[1..] == d;
  }

  lemma ObjectsEndTogether(es: seq<Entry>, fs: seq<Entry>, r: Text, r': Text)
    requires es == [] || fs == []
    requires Listed(MemberTexts(es), 0, RIGHT_BRACE, r) == Listed(MemberTexts(fs), 0, RIGHT_BRACE, r')
    ensures es == fs == [] && r == r'
  {
    hide Join, Listed, MemberText;
    FirstOfMembers(es, r);
    FirstOfMembers(fs, r');
    ListedEnds([], RIGHT_BRACE, r);
    ListedEnds([], RIGHT_BRACE, r');
    assert ([RIGHT_BRACE] + r)[1..] == r && ([RIGHT_BRACE] + r')[1..] == r';
  }

  lemma FirstOfMembers(es: seq<Entry>, r: Text)
    ensures var l := Listed(MemberTexts(es), 0, RIGHT_BRACE, r);
      l != [] && l[0] == if es == [] then RIGHT_BRACE else QUOTE
  {
    hide Canonical, Join, Listed, AfterPart, Escape;
    if es == [] {
      ListedEnds(MemberTexts(es), RIGHT_BRACE, r);
    } else {
      ListedSplits(MemberTexts(es), 0, RIGHT_BRACE, r);
      assert MemberTexts(es)[0] == MemberText(es[0]) && MemberText(es[0])[0] == QUOTE;
    }
  }

  // ----- Equal values print alike -----

  /** Keys in strictly increasing order. */
  predicate Increasing(keys: seq<Text>) {
    forall i, j :: 0 <= i < j < |keys| ==> Less(keys[i], keys[j])
  }

  function KeysOf(es: seq<Entry>): seq<Text> { seq(|es|, i requires 0 <= i < |es| => es[i].key) }

  lemma ConsIncreasing(e: Entry, es: seq<Entry>)
    requires Increasing(KeysOf(es)) && forall f :: f in es ==> Less(e.key, f.key)
    ensures Increasing(KeysOf([e] + es))
  {
    var all := KeysOf([e] + es);
    forall i, j | 0 <= i < j < |all|
      ensures Less(all[i], all[j])
    {
      assert all[j] == KeysOf(es)[j - 1] && es[j - 1] in es;
      assert i > 0 ==> all[i] == KeysOf(es)[i - 1];
    }
  }

  lemma TailIncreasing(es: seq<Entry>)
    requires es != [] && Increasing(KeysOf(es))
    ensures Increasing(KeysOf(es[1..])) && forall f :: f in es[1..] ==> Less(es[0].key, f.key)
  {
    var keys, tail := KeysOf(es), KeysOf(es[1..]);
    assert forall i :: 0 <= i < |tail| ==> tail[i] == keys[i + 1];
    forall f | f in es[1..]
      ensures Less(es[0].key, f.key)
    {
      var k :| 0 <= k < |es| - 1 && es[1..][k] == f;
      assert Less(keys[0], keys[k + 1]);
    }
  }

  lemma {:induction false} InsertIncreasing(e: Entry, es: seq<Entry>)
    requires Increasing(KeysOf(es)) && forall f :: f in es ==> f.key != e.key
    ensures Increasing(KeysOf(Insert(e, es)))
  {
    hide Increasing, KeysOf, Less;
    if es == [] {
      NothingIncreases();
      ConsIncreasing(e, []);
      assert [e] + [] == [e];
    } else {
      var head, tail := es[0], es[1..];
      assert head in es && es == [head] + tail;
      LessIsTotal(e.key, head.key);
      TailIncreasing(es);
      if Less(e.key, head.key) {
        forall f | f in es
          ensures Less(e.key, f.key)
        {
          if f != head { LessTransitive(e.key, head.key, f.key); }
        }
        ConsIncreasing(e, es);
      } else {
        InsertIncreasing(e, tail);
        forall f | f in Insert(e, tail)
          ensures Less(head.key, f.key)
        {
          assert f in multiset(Insert(e, tail));
        }
        ConsIncreasing(head, Insert(e, tail));
      }
    }
  }

  lemma NothingIncreases()
    ensures Increasing(KeysOf([]))
  {
  }

  lemma {:induction false} SortIncreasing(entries: seq<Entry>)
    requires DistinctKeys(entries)
    ensures Increasing(KeysOf(SortByKey(entries)))
  {
    if entries != [] {
      var n := |entries| - 1;
      SortIncreasing(entries[..n]);
      forall f | f in SortByKey(entries[..n])
        ensures f.key != entries[n].key
      {
        assert f in multiset(SortByKey(entries[..n])) && f in entries[..n];
      }
      InsertIncreasing(entries[n], SortByKey(entries[..n]));
    }
  }

  lemma {:induction false} DefinedKeepsDistinct(entries: seq<Entry>)
    requires DistinctKeys(entries)
    ensures DistinctKeys(Defined(entries))
  {
    if entries != [] {
      DefinedKeepsDistinct(entries[1..]);
      var rest := Defined(entries[1..]);
      forall j | 0 <= j < |rest|
        ensures rest[j].key != entries[0].key
      {
        assert rest[j] in entries[1..];
      }
    }
  }

  lemma OrderedIsIncreasing(entries: seq<Entry>)
    requires DistinctKeys(entries)
    ensures Increasing(KeysOf(Ordered(entries)))
  {
    DefinedKeepsDistinct(entries);
    SortIncreasing(Defined(entries));
  }

  lemma {:induction false} IncreasingIsUnique(a: seq<Text>, b: seq<Text>)
    requires Increasing(a) && Increasing(b) && forall k :: k in a <==> k in b
    ensures a == b
  {
    assert (a == []) == (b == []) by {
      assert a != [] ==> a[0] in a;
      assert b != [] ==> b[0] in b;
    }
    if a != [] {
      assert a[0] in b && b[0] in a;
      SameFirst(a, b);
      forall k
        ensures k in a[1..] <==> k in b[1..]
      {
        TailMembers(a, k);
        TailMembers(b, k);
      }
      IncreasingIsUnique(a[1..], b[1..]);
      assert a == [a[0]] + a[1..] && b == [b[0]] + b[1..];
    }
  }

  lemma SameFirst(a: seq<Text>, b: seq<Text>)
    requires Increasing(a) && Increasing(b) && a != [] && b != [] && a[0] in b && b[0] in a
    ensures a[0] == b[0]
  {
    LessIsTotal(a[0], b[0]);
  }

  lemma TailMembers(a: seq<Text>, k: Text)
    requires Increasing(a) && a != []
    ensures k in a[1..] <==> k in a && k != a[0]
  {
    LessIsTotal(k, k);
    if k in a && k != a[0] {
      var i :| 0 <= i < |a| && a[i] == k;
      assert a[1..][i - 1] == k;
    }
  }

  lemma {:induction false} EquivalentPrintsAlike(v: Json, w: Json)
    requires Proper(v) && Proper(w) && Equivalent(v, w)
    ensures Canonical(v) == Canonical(w)
    decreases v, 1
  {
    match v
    case Arr(items) =>
      ArrayText(items);
      ArrayText(w.items);
      forall i | 0 <= i < |items|
        ensures ItemTexts(items)[i] == ItemTexts(w.items)[i]
      {
        EquivalentPrintsAlike(items[i], w.items[i]);
      }
      assert ItemTexts(items) == ItemTexts(w.items);
    case Obj(entries) =>
      ObjectText(entries);
      ObjectText(w.entries);
      MembersPrintAlike(v, w);
    case _ =>
  }

  lemma SameKeys(v: Json, w: Json)
    requires v.Obj? && w.Obj? && Equivalent(v, w)
    ensures forall k :: k in KeysOf(Ordered(v.entries)) <==> k in KeysOf(Ordered(w.entries))
  {
    hide Ordered, Equivalent;
    ObjectsEquivalent(v, w);
    forall k
      ensures k in KeysOf(Ordered(v.entries)) <==> k in KeysOf(Ordered(w.entries))
    {
      DefinedKey(v.entries, k);
      DefinedKey(w.entries, k);
    }
  }

  lemma DefinedKey(entries: seq<Entry>, k: Text)
    ensures k in KeysOf(Ordered(entries)) <==> HasKey(entries, k)
  {
    hide Ordered;
    var es := Ordered(entries);
    if k in KeysOf(es) {
      var i :| 0 <= i < |es| && KeysOf(es)[i] == k;
      assert es[i] in es && es[i] in entries;
    }
    if i :| 0 <= i < |entries| && !entries[i].value.Undefined? && entries[i].key == k {
      assert entries[i] in es;
      var j :| 0 <= j < |es| && es[j] == entries[i];
      assert KeysOf(es)[j] == k;
    }
  }

  lemma {:induction false} MembersPrintAlike(v: Json, w: Json)
    requires v.Obj? && w.Obj? && Proper(v) && Proper(w) && Equivalent(v, w)
    ensures MemberTexts(Ordered(v.entries)) == MemberTexts(Ordered(w.entries))
    decreases v, 0
  {
    hide Ordered, Quote, Canonical;
    var es, fs := Ordered(v.entries), Ordered(w.entries);
    OrderedIsIncreasing(v.entries);
    OrderedIsIncreasing(w.entries);
    SameKeys(v, w);
    IncreasingIsUnique(KeysOf(es), KeysOf(fs));
    assert |es| == |KeysOf(es)| == |fs|;
    forall k | 0 <= k < |es|
      ensures MemberText(es[k]) == MemberText(fs[k])
    {
      assert KeysOf(es)[k] == KeysOf(fs)[k];
      assert es[k] in es && fs[k] in fs && es[k] in v.entries && fs[k] in w.entries;
      ProperMember(v, es[k]);
      ProperMember(w, fs[k]);
      SameMember(v, w, es[k], fs[k]);
      EquivalentPrintsAlike(es[k].value, fs[k].value);
    }
  }

  lemma ProperMember(v: Json, e: Entry)
    requires v.Obj? && Proper(v) && e in v.entries
    ensures Proper(e.value)
  {
  }

  lemma SameMember(v: Json, w: Json, e: Entry, f: Entry)
    requires v.Obj? && w.Obj? && DistinctKeys(w.entries) && Equivalent(v, w)
    requires e in v.entries && f in w.entries && e.key == f.key && !e.value.Undefined?
    ensures Equivalent(e.value, f.value)
  {
    hide Equivalent;
    ObjectsEquivalent(v, w);
    assert Matched(e, w.entries);
    var j :| 0 <= j < |w.entries| && w.entries[j].key == e.key && Equivalent(e.value, w.entries[j].value);
    var k :| 0 <= k < |w.entries| && w.entries[k] == f;
    assert j == k;
  }

  /** Two values print the same text exactly when they are equal up to key order at every depth. */
  lemma SameTextExactlyWhenEquivalent(v: Json, w: Json)
    requires Proper(v) && Proper(w)
    ensures Canonical(v) == Canonical(w) <==> Equivalent(v, w)
  {
    if Canonical(v) == Canonical(w) {
      Readable(v, w, [], []);
    }
    if Equivalent(v, w) {
      EquivalentPrintsAlike(v, w);
    }
  }

  // ----- The fingerprint -----

  /** Upper case of the letters a method name is made of. */
  function ToUpper(method_: Text): Text {
    seq(|method_|, i requires 0 <= i < |method_| => if 97 <= method_[i] <= 122 then method_[i] - 32 else method_[i])
  }

  /** The two units are one ASCII letter, perhaps in different case, or the same unit. */
  predicate SameLetter(c: CodeUnit, d: CodeUnit) {
    c == d || (97 <= c <= 122 && d == c - 32) || (97 <= d <= 122 && c == d - 32)
  }

  /** Two method names come to the same exactly when they are the same up to the case of their letters. */
  lemma UpperIgnoresCase(m: Text, n: Text)
    ensures ToUpper(m) == ToUpper(n) <==> |m| == |n| && forall i :: 0 <= i < |m| ==> SameLetter(m[i], n[i])
  {
    if ToUpper(m) == ToUpper(n) {
      assert |ToUpper(m)| == |m| && |ToUpper(n)| == |n|;
      forall i | 0 <= i < |m|
        ensures SameLetter(m[i], n[i])
      {
        assert ToUpper(m)[i] == ToUpper(n)[i];
      }
    }
  }

  /** The text that is hashed. */
  function FingerprintText(method_: Text, path: Text, body: Json): Text {
    ToUpper(method_) + [NEWLINE] + path + [NEWLINE] + Canonical(body)
  }

  lemma LineNoLonger(a: Text, b: Text, r: Text, r': Text)
    requires NEWLINE !in b && a + ([NEWLINE] + r) == b + ([NEWLINE] + r')
    ensures |b| <= |a|
  {
    var s := a + ([NEWLINE] + r);
    assert s[|a|] == NEWLINE;
    assert forall i :: 0 <= i < |b| ==> s[i] == b[i] && s[i] in b;
  }

  lemma LineIsReadable(a: Text, b: Text, r: Text, r': Text)
    requires NEWLINE !in a && NEWLINE !in b && a + [NEWLINE] + r == b + [NEWLINE] + r'
    ensures a == b && r == r'
  {
    Associates(a, [NEWLINE], r);
    Associates(b, [NEWLINE], r');
    LineNoLonger(a, b, r, r');
    LineNoLonger(b, a, r', r);
    SamePrefix(a, b, [NEWLINE] + r, [NEWLINE] + r');
    assert ([NEWLINE] + r)[1..] == r && ([NEWLINE] + r')[1..] == r';
  }

  lemma UpperHasNoNewline(m: Text)
    requires NEWLINE !in m
    ensures NEWLINE !in ToUpper(m)
  {
  }

  /** Two requests hash the same text exactly when they agree on the method up to case, on the path, and on
      the body up to key order. */
  lemma SameRequestExactlyWhen(m: Text, n: Text, p: Text, q: Text, v: Json, w: Json)
    requires Proper(v) && Proper(w)
    requires NEWLINE !in m && NEWLINE !in n && NEWLINE !in p && NEWLINE !in q
    ensures FingerprintText(m, p, v) == FingerprintText(n, q, w) <==>
      ToUpper(m) == ToUpper(n) && p == q && Equivalent(v, w)
  {
    hide Canonical, Equivalent, ToUpper;
    UpperHasNoNewline(m);
    UpperHasNoNewline(n);
    SameTextExactlyWhenEquivalent(v, w);
    var r, r' := p + [NEWLINE] + Canonical(v), q + [NEWLINE] + Canonical(w);
    assert FingerprintText(m, p, v) == ToUpper(m) + [NEWLINE] + r;
    assert FingerprintText(n, q, w) == ToUpper(n) + [NEWLINE] + r';
    if FingerprintText(m, p, v) == FingerprintText(n, q, w) {
      LineIsReadable(ToUpper(m), ToUpper(n), r, r');
      LineIsReadable(p, q, Canonical(v), Canonical(w));
    }
  }
}
