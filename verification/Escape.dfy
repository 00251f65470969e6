/**
 `strEscape`: how `inspect` prints a string. Strings are sequences of 16-bit code units, so
 that a surrogate without its partner can be written down.
 */
module Escape {
  import opened Options

  type Text = seq<int>

  const BACKSPACE := 8
  const TAB := 9
  const NEWLINE := 10
  const FEED := 12
  const RETURN := 13
  const DOUBLE := 34        // "
  const DOLLAR := 36
  const SINGLE := 39        // '
  const BACKSLASH := 92
  const BACKTICK := 96
  const BRACE := 123        // {

  predicate IsText(s: Text) {
    forall i :: 0 <= i < |s| ==> 0 <= s[i] < 0x1_0000
  }

  predicate High(u: int) { 0xd800 <= u <= 0xdbff }
  predicate Low(u: int) { 0xdc00 <= u <= 0xdfff }

  /** A surrogate without its partner: the look-ahead and the look-behind of the regular expressions. */
  predicate Lone(s: Text, i: nat)
    requires i < |s|
  {
    || (High(s[i]) && !(i + 1 < |s| && Low(s[i + 1])))
    || (Low(s[i]) && !(i > 0 && High(s[i - 1])))
  }

  /** The character class of the regular expressions; `single` is whether it has the single quote. */
  predicate Special(u: int, single: bool) {
    u < 32 || u == BACKSLASH || 127 <= u < 160 || (single && u == SINGLE)
  }

  function Digit(d: int, upper: bool): int {
    if d < 10 then 48 + d else (if upper then 65 else 97) + d - 10
  }

  /** toString(16). */
  function Hex(u: nat, upper: bool): Text {
    if u < 16 then [Digit(u, upper)] else Hex(u / 16, upper) + [Digit(u % 16, upper)]
  }

  /** The table `meta`, without the entries that are never used. */
  function Meta(u: int): Text
    requires 0 <= u < 160
  {
    if u == BACKSPACE then [BACKSLASH, 98]
    else if u == TAB then [BACKSLASH, 116]
    else if u == NEWLINE then [BACKSLASH, 110]
    else if u == FEED then [BACKSLASH, 102]
    else if u == RETURN then [BACKSLASH, 114]
    else if u == SINGLE || u == BACKSLASH then [BACKSLASH, u]
    else if u < 32 || u >= 127 then [BACKSLASH, 120] + (if u < 16 then [48] else []) + Hex(u, true)
    else []
  }

  /** \u and the digits, which are four for a surrogate. */
  function Wide(u: nat): Text {
    [BACKSLASH, 117] + Hex(u, false)
  }

  /** What the replacement puts in place of unit i. */
  function Shown(s: Text, i: nat, single: bool): Text
    requires i < |s| && IsText(s)
  {
    if Special(s[i], single) then Meta(s[i]) else if Lone(s, i) then Wide(s[i]) else [s[i]]
  }

  /** The first k units after replacing, and the units from k on. */
  function ShownUpTo(s: Text, k: nat, single: bool): Text
    requires k <= |s| && IsText(s)
  {
    if k == 0 then [] else ShownUpTo(s, k - 1, single) + Shown(s, k - 1, single)
  }

  function ShownFrom(s: Text, k: nat, single: bool): Text
    requires k <= |s| && IsText(s)
    decreases |s| - k
  {
    if k == |s| then [] else Shown(s, k, single) + ShownFrom(s, k + 1, single)
  }

  lemma {:induction false} BothWays(s: Text, k: nat, single: bool)
    requires k <= |s| && IsText(s)
    ensures ShownUpTo(s, k, single) + ShownFrom(s, k, single) == ShownFrom(s, 0, single)
  {
    if k > 0 {
      BothWays(s, k - 1, single);
      var a, b, c := ShownUpTo(s, k - 1, single), Shown(s, k - 1, single), ShownFrom(s, k, single);
      assert (a + b) + c == a + (b + c);
    }
  }

  // ----- the value of a literal (sections 12.9.4 and 12.9.6 of ECMA-262)

  function DigitValue(c: int): int {
    if 48 <= c <= 57 then c - 48 else if 65 <= c <= 70 then c - 55 else if 97 <= c <= 102 then c - 87 else -1
  }

  /** The units of a numeric escape. */
  function Number(t: Text): Option<int>
    decreases |t|
  {
    if t == [] then Some(0)
    else
      var n := |t| - 1;
      var front := Number(t[..n]);
      if front.None? || DigitValue(t[n]) < 0 then None else Some(16 * front.value + DigitValue(t[n]))
  }

  /** The characters after a backslash that stand for one unit: itself, or a control character. */
  function Simple(c: int): Option<int> {
    if c == 98 then Some(8) else if c == 116 then Some(9) else if c == 110 then Some(10)
    else if c == 118 then Some(11) else if c == 102 then Some(12) else if c == 114 then Some(13)
    else if 48 <= c <= 57 || c == 117 || c == 120 || LineTerminator(c) then None
    else Some(c)
  }

  predicate LineTerminator(c: int) { c == NEWLINE || c == RETURN || c == 0x2028 || c == 0x2029 }

  function Cons(u: int, rest: Option<Text>): Option<Text> {
    if rest.None? then None else Some([u] + rest.value)
  }

  /** The value of the text between two quotes; None if it is not what a literal may hold. */
  function Decode(t: Text, quote: int): Option<Text>
    decreases |t|
  {
    if t == [] then Some([])
    else if t[0] == quote then None
    else if t[0] == BACKSLASH then
      if |t| < 2 then None
      else if t[1] == 120 then
        if |t| < 4 || Number(t[2..4]).None? then None else Cons(Number(t[2..4]).value, Decode(t[4..], quote))
      else if t[1] == 117 then
        if |t| < 6 || Number(t[2..6]).None? then None else Cons(Number(t[2..6]).value, Decode(t[6..], quote))
      else if Simple(t[1]).None? then None
      else Cons(Simple(t[1]).value, Decode(t[2..], quote))
    else if t[0] == NEWLINE || t[0] == RETURN then None
    else if quote == BACKTICK && t[0] == DOLLAR && |t| > 1 && t[1] == BRACE then None
    else Cons(t[0], Decode(t[1..], quote))
  }

  lemma NumberOne(a: int)
    requires DigitValue(a) >= 0
    ensures Number([a]) == Some(DigitValue(a))
  {
    assert [a][..0] == [];
  }

  lemma NumberMore(t: Text, a: int)
    requires Number(t).Some? && DigitValue(a) >= 0
    ensures Number(t + [a]) == Some(16 * Number(t).value + DigitValue(a))
  {
    var t' := t + [a];
    assert t'[..|t|] == t && t'[|t|] == a;
  }

  lemma {:induction false} HexNumber(u: nat, upper: bool)
    ensures Number(Hex(u, upper)) == Some(u)
  {
    if u < 16 {
      NumberOne(Digit(u, upper));
    } else {
      HexNumber(u / 16, upper);
      NumberMore(Hex(u / 16, upper), Digit(u % 16, upper));
    }
  }

  lemma HexLength(u: nat, upper: bool)
    ensures u < 16 ==> |Hex(u, upper)| == 1
    ensures 16 <= u < 256 ==> |Hex(u, upper)| == 2
    ensures 0x1000 <= u < 0x1_0000 ==> |Hex(u, upper)| == 4
  {
    if u >= 0x1000 {
      assert u / 16 / 16 == u / 256;
      assert |Hex(u / 256 / 16, upper)| + 1 == |Hex(u / 256, upper)|;
      assert |Hex(u / 256, upper)| + 1 == |Hex(u / 16, upper)|;
    }
  }

  lemma ByteNumber(u: nat)
    requires u < 256
    ensures var t := (if u < 16 then [48] else []) + Hex(u, true); |t| == 2 && Number(t) == Some(u)
  {
    HexNumber(u, true);
    HexLength(u, true);
    if u < 16 {
      NumberOne(48);
      NumberMore([48], Digit(u, true));
    } else {
      assert [] + Hex(u, true) == Hex(u, true);
    }
  }

  lemma DecodeSimple(c: int, rest: Text, quote: int)
    requires c != 117 && c != 120 && Simple(c).Some? && quote != BACKSLASH
    ensures Decode([BACKSLASH, c] + rest, quote) == Cons(Simple(c).value, Decode(rest, quote))
  {
    assert ([BACKSLASH, c] + rest)[2..] == rest;
  }

  lemma DecodeByte(digits: Text, rest: Text, quote: int)
    requires |digits| == 2 && Number(digits).Some? && quote != BACKSLASH
    ensures Decode([BACKSLASH, 120] + digits + rest, quote) == Cons(Number(digits).value, Decode(rest, quote))
  {
    var t := [BACKSLASH, 120] + digits + rest;
    assert t[2..4] == digits && t[4..] == rest;
  }

  lemma DecodeWide(digits: Text, rest: Text, quote: int)
    requires |digits| == 4 && Number(digits).Some? && quote != BACKSLASH
    ensures Decode([BACKSLASH, 117] + digits + rest, quote) == Cons(Number(digits).value, Decode(rest, quote))
  {
    var t := [BACKSLASH, 117] + digits + rest;
    assert t[2..6] == digits && t[6..] == rest;
  }

  lemma DecodePlain(u: int, rest: Text, quote: int)
    requires u != quote && u != BACKSLASH && u != NEWLINE && u != RETURN
    requires !(quote == BACKTICK && u == DOLLAR && rest != [] && rest[0] == BRACE)
    ensures Decode([u] + rest, quote) == Cons(u, Decode(rest, quote))
  {
    assert ([u] + rest)[1..] == rest;
  }

  lemma DecodeMeta(u: int, rest: Text, quote: int)
    requires 0 <= u < 160 && Special(u, true) && quote != BACKSLASH
    ensures Decode(Meta(u) + rest, quote) == Cons(u, Decode(rest, quote))
  {
    if u == SINGLE || u == BACKSLASH {
      DecodeSimple(u, rest, quote);
    } else if u in {BACKSPACE, TAB, NEWLINE, FEED, RETURN} {
      DecodeSimple(Meta(u)[1], rest, quote);
    } else {
      var digits := (if u < 16 then [48] else []) + Hex(u, true);
      ByteNumber(u);
      DecodeByte(digits, rest, quote);
      assert Meta(u) == [BACKSLASH, 120] + digits;
    }
  }

  lemma DecodeSurrogate(u: int, rest: Text, quote: int)
    requires 0x1000 <= u < 0x1_0000 && quote != BACKSLASH
    ensures Decode(Wide(u) + rest, quote) == Cons(u, Decode(rest, quote))
  {
    HexNumber(u, false);
    HexLength(u, false);
    DecodeWide(Hex(u, false), rest, quote);
  }

  // ----- the three quotes

  predicate Contains(s: Text, u: int) {
    exists i :: 0 <= i < |s| && s[i] == u
  }

  predicate HasSubstitution(s: Text) {
    exists i :: 0 <= i < |s| - 1 && s[i] == DOLLAR && s[i + 1] == BRACE
  }

  /** Single quotes, unless that would mean escaping one that another kind of quote need not. */
  function Quote(s: Text): int {
    if !Contains(s, SINGLE) then SINGLE
    else if !Contains(s, DOUBLE) then DOUBLE
    else if !Contains(s, BACKTICK) && !HasSubstitution(s) then BACKTICK
    else SINGLE
  }

  /** What the text may not hold because of its quotes. */
  predicate Suits(s: Text, quote: int) {
    && quote in {SINGLE, DOUBLE, BACKTICK}
    && (quote != SINGLE ==> !Contains(s, quote))
    && (quote == BACKTICK ==> !HasSubstitution(s))
  }

  lemma {:induction false} LiteralFrom(s: Text, k: nat, quote: int)
    requires IsText(s) && k <= |s| && Suits(s, quote)
    ensures Decode(ShownFrom(s, k, quote == SINGLE), quote) == Some(s[k..])
    decreases |s| - k
  {
    if k < |s| {
      var single := quote == SINGLE;
      var rest := ShownFrom(s, k + 1, single);
      LiteralFrom(s, k + 1, quote);
      if Special(s[k], single) {
        DecodeMeta(s[k], rest, quote);
      } else if Lone(s, k) {
        DecodeSurrogate(s[k], rest, quote);
      } else {
        FirstShown(s, k + 1, single);
        DecodePlain(s[k], rest, quote);
      }
      assert [s[k]] + s[k + 1..] == s[k..];
    }
  }

  /** Only a brace is shown as text that starts with a brace. */
  lemma FirstShown(s: Text, k: nat, single: bool)
    requires IsText(s) && k <= |s|
    ensures var t := ShownFrom(s, k, single); t != [] && t[0] == BRACE ==> k < |s| && s[k] == BRACE
  {}

  /** Between its quotes, every string is shown as a literal with that string as its value. */
  lemma LiteralValue(s: Text)
    requires IsText(s)
    ensures Decode(ShownFrom(s, 0, Quote(s) == SINGLE), Quote(s)) == Some(s)
  {
    LiteralFrom(s, 0, Quote(s));
    assert s[0..] == s;
  }

  /**
   Which quotes: double ones exactly if they spare single ones from being escaped, backticks
   exactly if those do and double quotes do not, and single quotes otherwise.
   */
  lemma QuoteChosen(s: Text)
    ensures Quote(s) == 34 <==> 39 in s && 34 !in s
    ensures Quote(s) == 96 <==>
            39 in s && 34 in s && 96 !in s && forall i :: 0 <= i < |s| - 1 ==> !(s[i] == 36 && s[i + 1] == 123)
    ensures Quote(s) == 39 || Quote(s) == 34 || Quote(s) == 96
  {
    assert Contains(s, SINGLE) <==> 39 in s;
    assert Contains(s, DOUBLE) <==> 34 in s;
    assert Contains(s, BACKTICK) <==> 96 in s;
  }

  /** Upper or lower case digits to the base 16. */
  predicate HexDigits(t: Text, upper: bool) {
    forall i :: 0 <= i < |t| ==> 48 <= t[i] <= 57 || (if upper then 65 <= t[i] <= 70 else 97 <= t[i] <= 102)
  }

  lemma {:induction false} HexIsDigits(u: nat, upper: bool)
    ensures HexDigits(Hex(u, upper), upper)
  {
    if u >= 16 { HexIsDigits(u / 16, upper); }
  }

  /** What is escaped, and in which form; everything else is shown as it is. */
  lemma Forms(s: Text, i: nat, single: bool)
    requires IsText(s) && i < |s|
    ensures var u, t := s[i], Shown(s, i, single);
            if u == 92 || (single && u == 39) then t == [92, u]
            else if u in {8, 9, 10, 12, 13} then |t| == 2 && t[0] == 92 && t[1] in {98, 116, 110, 102, 114}
            else if u < 32 || 127 <= u < 160 then |t| == 4 && t[..2] == [92, 120] && HexDigits(t[2..], true)
            else if (0xd800 <= u < 0xdc00 && !(i + 1 < |s| && 0xdc00 <= s[i + 1] < 0xe000)) ||
                    (0xdc00 <= u < 0xe000 && !(i > 0 && 0xd800 <= s[i - 1] < 0xdc00))
            then |t| == 6 && t[..2] == [92, 117] && HexDigits(t[2..], false)
            else t == [u]
  {
    HexIsDigits(s[i], true);
    HexIsDigits(s[i], false);
    HexLength(s[i], true);
    HexLength(s[i], false);
    var t := Shown(s, i, single);
    if |t| == 4 { assert t[2..] == (if s[i] < 16 then [48] else []) + Hex(s[i], true); }
    if |t| == 6 { assert t[2..] == Hex(s[i], false); }
  }

  // ----- the printer

  method AddQuotes(s: Text, quote: int) returns (out: Text)
    ensures out == [quote] + s + [quote]
  {
    if quote == DOUBLE {
      out := [DOUBLE] + s + [DOUBLE];
    } else if quote == BACKTICK {
      out := [BACKTICK] + s + [BACKTICK];
    } else {
      out := [quote] + s + [quote];
    }
  }

  /** No unit that is replaced: what the regular expression's exec finds. */
  predicate Clean(s: Text, single: bool) {
    forall i {:trigger AsIs(s, i, single)} :: 0 <= i < |s| ==> AsIs(s, i, single)
  }

  /** Unit i is shown as it is. */
  predicate AsIs(s: Text, i: nat, single: bool)
    requires i < |s|
  {
    !Special(s[i], single) && !Lone(s, i)
  }

  lemma {:induction false} CleanShown(s: Text, k: nat, single: bool)
    requires IsText(s) && Clean(s, single) && k <= |s|
    ensures ShownFrom(s, k, single) == s[k..]
    decreases |s| - k
  {
    if k < |s| {
      assert AsIs(s, k, single);
      CleanShown(s, k + 1, single);
    }
  }

  /** Before unit k, no pair is cut in two. */
  predicate Whole(s: Text, k: nat) {
    0 < k < |s| ==> !(High(s[k - 1]) && Low(s[k]))
  }

  /** `result` shows the units before `last`, and those from there to k are shown as they are. */
  ghost predicate Behind(s: Text, single: bool, result: Text, last: nat, k: nat) {
    && IsText(s) && last <= k <= |s| && result == ShownUpTo(s, last, single)
    && forall j {:trigger AsIs(s, j, single)} :: last <= j < k ==> AsIs(s, j, single)
  }

  lemma AppendSlice(t: Text, s: Text, last: nat, k: nat)
    requires last < k <= |s|
    ensures t + s[last..k] == (t + s[last..k - 1]) + [s[k - 1]]
  {}

  lemma {:induction false} AsIsShown(s: Text, single: bool, result: Text, last: nat, k: nat)
    requires Behind(s, single, result, last, k)
    ensures result + s[last..k] == ShownUpTo(s, k, single)
  {
    if last < k {
      AsIsShown(s, single, result, last, k - 1);
      assert AsIs(s, k - 1, single);
      AppendSlice(result, s, last, k);
    }
  }

  lemma ReplaceUnit(s: Text, single: bool, result: Text, last: nat, k: nat, shown: Text)
    requires Behind(s, single, result, last, k) && k < |s| && shown == Shown(s, k, single)
    ensures Behind(s, single, result + (s[last..k] + shown), k + 1, k + 1)
  {
    AsIsShown(s, single, result, last, k);
    assert result + (s[last..k] + shown) == (result + s[last..k]) + shown;
  }

  lemma AllBehind(s: Text, single: bool, result: Text, last: nat)
    requires Behind(s, single, result, last, |s|)
    ensures result + s[last..] == ShownFrom(s, 0, single)
  {
    AsIsShown(s, single, result, last, |s|);
    assert s[last..] == s[last..|s|];
    BothWays(s, |s|, single);
    var t := ShownUpTo(s, |s|, single);
    assert t + [] == t;
  }

  /** What one round of the loop puts in place of unit i, if anything, and how many units it looks at. */
  method Replacement(s: Text, single: bool, i: nat) returns (shown: Text, units: nat)
    requires IsText(s) && i < |s| && Whole(s, i)
    ensures units in {1, 2} && i + units <= |s| && Whole(s, i + units)
    ensures shown != [] ==> units == 1 && shown == Shown(s, i, single)
    ensures shown == [] ==> AsIs(s, i, single) && AsIs(s, i + units - 1, single)
  {
    var point := s[i];
    if Special(point, single) { return Meta(point), 1; }
    if 0xd800 <= point <= 0xdfff {
      if point <= 0xdbff && i + 1 < |s| && 0xdc00 <= s[i + 1] <= 0xdfff { return [], 2; }
      return Wide(point), 1;
    }
    return [], 1;
  }

  /** One round of the loop. */
  method ScanUnit(s: Text, single: bool, result: Text, last: nat, i: nat) returns (result': Text, last': nat, units: nat)
    requires Behind(s, single, result, last, i) && i < |s| && Whole(s, i)
    ensures units > 0 && Behind(s, single, result', last', i + units) && Whole(s, i + units)
  {
    var shown;
    shown, units := Replacement(s, single, i);
    result', last' := result, last;
    if shown != [] {
      ReplaceUnit(s, single, result, last, i, shown);
      result' := result + (s[last..i] + shown);
      last' := i + 1;
    }
  }

  method ScanUnits(s: Text, single: bool) returns (result: Text, last: nat)
    requires IsText(s)
    ensures Behind(s, single, result, last, |s|)
  {
    result, last := [], 0;
    var i := 0;
    while i < |s|
      invariant 0 <= i <= |s| && Behind(s, single, result, last, i) && Whole(s, i)
    {
      var units;
      result, last, units := ScanUnit(s, single, result, last, i);
      i := i + units;
    }
  }

  /** The hand-written loop does what the replacement does. */
  method EscapeLoop(s: Text, single: bool) returns (result: Text)
    requires IsText(s)
    ensures result == ShownFrom(s, 0, single)
  {
    var last;
    result, last := ScanUnits(s, single);
    AllBehind(s, single, result, last);
    result := result + s[last..];
  }

  /** Whatever path is taken, the output is a literal in quotes whose value is the string. */
  method StrEscape(s: Text) returns (out: Text)
    requires IsText(s)
    ensures out == [Quote(s)] + ShownFrom(s, 0, Quote(s) == SINGLE) + [Quote(s)]
    ensures |out| >= 2 && out[0] == out[|out| - 1] == Quote(s)
    ensures Decode(out[1..|out| - 1], Quote(s)) == Some(s)
  {
    LiteralValue(s);
    var quote := SINGLE;
    if Contains(s, SINGLE) {
      if !Contains(s, DOUBLE) {
        quote := DOUBLE;
      } else if !Contains(s, BACKTICK) && !HasSubstitution(s) {
        quote := BACKTICK;
      }
    }
    var body;
    if |s| < 5000 && Clean(s, quote == SINGLE) {
      CleanShown(s, 0, quote == SINGLE);
      body := s;
    } else if |s| > 100 {
      body := ShownFrom(s, 0, quote == SINGLE);
    } else {
      body := EscapeLoop(s, quote == SINGLE);
    }
    out := AddQuotes(body, quote);
    assert out[1..|out| - 1] == body;
  }
}
