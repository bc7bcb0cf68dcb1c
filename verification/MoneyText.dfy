/**
 * Amounts as text: minor units in a decimal string, shown with grouped thousands and parsed back
 * from what a person types.  All of it string and integer work, so no size of amount is special.
 */
module MoneyText {
  import opened Basics

  // ---------------------------------------------------------------- decimal digits

  predicate IsDigit(c: char) {
    '0' <= c <= '9'
  }

  predicate AllDigits(s: string) {
    forall i :: 0 <= i < |s| ==> IsDigit(s[i])
  }

  /** A positive decimal without leading zeros, as the API writes amounts. */
  predicate Canonical(s: string) {
    |s| > 0 && AllDigits(s) && s[0] != '0'
  }

  function DigitValue(c: char): nat
    requires IsDigit(c)
  {
    (c - '0') as int
  }

  /** BigInt(s) for a string of digits. */
  function Value(s: string): nat
    requires AllDigits(s)
  {
    if |s| == 0 then 0 else 10 * Value(s[..|s| - 1]) + DigitValue(s[|s| - 1])
  }

  function DigitChar(d: nat): (c: char)
    requires d < 10
    ensures IsDigit(c) && DigitValue(c) == d
  {
    '0' + d as char
  }

  /** BigInt.prototype.toString. */
  function Decimal(n: nat): (s: string)
    ensures AllDigits(s) && |s| > 0 && Value(s) == n
    ensures n > 0 ==> Canonical(s)
  {
    if n < 10 then [DigitChar(n)]
    else
      var s := Decimal(n / 10) + [DigitChar(n % 10)];
      assert s[..|s| - 1] == Decimal(n / 10);
      s
  }

  lemma {:induction false} CanonicalPositive(s: string)
    requires Canonical(s)
    ensures Value(s) > 0
  {
    if |s| > 1 {
      CanonicalPositive(s[..|s| - 1]);
    } else {
      assert s[..0] == "" && DigitValue(s[0]) > 0;
    }
  }

  /** Canonical text is the decimal text of its value. */
  lemma {:induction false} DecimalOfValue(s: string)
    requires Canonical(s)
    ensures Decimal(Value(s)) == s
  {
    var prefix, last := s[..|s| - 1], s[|s| - 1];
    if |s| == 1 {
      assert Value(prefix) == 0;
    } else {
      CanonicalPositive(prefix);
      DecimalOfValue(prefix);
      assert Value(s) / 10 == Value(prefix) && Value(s) % 10 == DigitValue(last);
    }
    assert DigitChar(DigitValue(last)) == last;
    assert s == prefix + [last];
  }

  lemma {:induction false} ValueConcat(a: string, b: string)
    requires AllDigits(a) && AllDigits(b)
    ensures AllDigits(a + b) && Value(a + b) == Value(a) * Pow10(|b|) + Value(b)
  {
    if |b| == 0 {
      assert a + b == a;
    } else {
      var rest, last := b[..|b| - 1], DigitValue(b[|b| - 1]);
      assert (a + b)[..|a + b| - 1] == a + rest;
      ValueConcat(a, rest);
      TenTimes(Value(a), Pow10(|rest|));
      assert Value(a + b) == 10 * Value(a + rest) + last && Value(b) == 10 * Value(rest) + last;
    }
  }

  lemma TenTimes(x: nat, y: nat)
    ensures 10 * (x * y) == x * (10 * y)
  {
  }

  function Pow10(n: nat): nat {
    if n == 0 then 1 else 10 * Pow10(n - 1)
  }

  // ---------------------------------------------------------------- formatting

  const MINOR_DIGITS: nat := 2

  function Zeros(n: nat): (s: string)
    ensures |s| == n && AllDigits(s) && Value(s) == 0
  {
    if n == 0 then ""
    else
      var s := Zeros(n - 1) + "0";
      assert s[..n - 1] == Zeros(n - 1);
      s
  }

  function PadStart(s: string, width: nat): string {
    if |s| >= width then s else Zeros(width - |s|) + s
  }

  function PadEnd(s: string, width: nat): string {
    if |s| >= width then s else s + Zeros(width - |s|)
  }

  /** Groups of `size` digits counted from the right. */
  function GroupBy(s: string, size: nat): string
    requires size > 0
  {
    if |s| <= size then s else GroupBy(s[..|s| - size], size) + "," + s[|s| - size..]
  }

  /** toLocaleString: en-IN groups three digits and then pairs, en-US always three. */
  function Grouped(s: string, indian: bool): string {
    if !indian then GroupBy(s, 3)
    else if |s| <= 3 then s
    else GroupBy(s[..|s| - 3], 2) + "," + s[|s| - 3..]
  }

  predicate Amount(s: string) {
    var digits := if |s| > 0 && s[0] == '-' then s[1..] else s;
    |digits| > 0 && AllDigits(digits)
  }

  function Major(digits: string): string {
    var padded := PadStart(digits, MINOR_DIGITS + 1);
    padded[..|padded| - MINOR_DIGITS]
  }

  function Minor(digits: string): string {
    var padded := PadStart(digits, MINOR_DIGITS + 1);
    padded[|padded| - MINOR_DIGITS..]
  }

  /** The number part of `formatMinor`: no sign, no currency symbol. */
  function FormatDigits(digits: string, indian: bool): string
    requires AllDigits(digits)
  {
    assert AllDigits(Major(digits));
    Grouped(Decimal(Value(Major(digits))), indian) + "." + Minor(digits)
  }

  function Symbol(currency: string): string {
    if currency == "INR" then "\U{20B9}" else if currency == "USD" then "$" else currency + " "
  }

  function FormatMinor(amount: string, currency: string): string
    requires Amount(amount)
  {
    var negative := amount[0] == '-';
    var digits := if negative then amount[1..] else amount;
    (if negative then "\U{2212}" else "") + Symbol(currency) + FormatDigits(digits, currency == "INR")
  }

  // ---------------------------------------------------------------- parsing

  /** The characters of the regular expression class \s. */
  predicate IsSpace(c: char) {
    || c in " \t\n\r\U{B}\U{C}\U{A0}\U{1680}\U{2028}\U{2029}\U{202F}\U{205F}\U{3000}\U{FEFF}"
    || '\U{2000}' <= c <= '\U{200A}'
  }

  /** input.replace(/[,\s]/g, '') */
  function Cleaned(s: string): string {
    if |s| == 0 then ""
    else if s[0] == ',' || IsSpace(s[0]) then Cleaned(s[1..])
    else [s[0]] + Cleaned(s[1..])
  }

  function IndexOf(s: string, c: char): (i: nat)
    ensures i <= |s| && (forall j :: 0 <= j < i ==> s[j] != c) && (i < |s| ==> s[i] == c)
  {
    if |s| == 0 || s[0] == c then 0 else 1 + IndexOf(s[1..], c)
  }

  /** The two captures of /^(\d+)(?:\.(\d{1,2}))?$/, if it matches. */
  function Match(s: string): (r: Option<(string, string)>)
    ensures r.Some? ==> AllDigits(r.value.0) && |r.value.0| > 0 && AllDigits(r.value.1) && |r.value.1| <= 2
  {
    var dot := IndexOf(s, '.');
    var major := s[..dot];
    if |major| == 0 || !AllDigits(major) then None
    else if dot == |s| then Some((major, ""))
    else
      var minor := s[dot + 1..];
      if AllDigits(minor) && 1 <= |minor| <= 2 then Some((major, minor)) else None
  }

  /** `parseMajorToMinor`. */
  function ParseMajorToMinor(input: string): Option<string> {
    match Match(Cleaned(input))
    case None => None
    case Some((major, minor)) =>
      var padded := PadEnd(minor, MINOR_DIGITS);
      assert AllDigits(padded);
      var total := Value(major) * 100 + Value(padded);
      if total > 0 then Some(Decimal(total)) else None
  }

  // ---------------------------------------------------------------- round trip

  lemma {:induction false} CleanedConcat(a: string, b: string)
    ensures Cleaned(a + b) == Cleaned(a) + Cleaned(b)
  {
    if |a| == 0 {
      assert a + b == b;
    } else {
      assert (a + b)[1..] == a[1..] + b;
      CleanedConcat(a[1..], b);
    }
  }

  lemma {:induction false} CleanedDigits(s: string)
    requires AllDigits(s)
    ensures Cleaned(s) == s
  {
    if |s| > 0 {
      CleanedDigits(s[1..]);
    }
  }

  lemma {:induction false} CleanedGroups(s: string, size: nat)
    requires size > 0 && AllDigits(s)
    ensures Cleaned(GroupBy(s, size)) == s
  {
    if |s| <= size {
      CleanedDigits(s);
    } else {
      var head, tail := s[..|s| - size], s[|s| - size..];
      CleanedGroups(head, size);
      CleanedJoin(GroupBy(head, size), tail);
    }
  }

  lemma CleanedJoin(head: string, tail: string)
    requires AllDigits(tail)
    ensures Cleaned(head + "," + tail) == Cleaned(head) + tail
  {
    assert Cleaned(",") == "";
    hide Cleaned;
    CleanedConcat(head + ",", tail);
    CleanedConcat(head, ",");
    CleanedDigits(tail);
  }

  /** Removing the commas of either grouping gives the digits back. */
  lemma CleanedGrouped(s: string, indian: bool)
    requires AllDigits(s)
    ensures Cleaned(Grouped(s, indian)) == s
  {
    if !indian {
      CleanedGroups(s, 3);
    } else if |s| <= 3 {
      CleanedDigits(s);
    } else {
      CleanedGroups(s[..|s| - 3], 2);
      CleanedJoin(GroupBy(s[..|s| - 3], 2), s[|s| - 3..]);
    }
  }

  lemma MatchParts(major: string, minor: string)
    requires AllDigits(major) && |major| > 0 && AllDigits(minor) && |minor| == 2
    ensures Match(major + "." + minor) == Some((major, minor))
  {
    var s := major + "." + minor;
    assert s[|major|] == '.';
    assert IndexOf(s, '.') == |major| by {
      var i := IndexOf(s, '.');
      assert i < |major| ==> IsDigit(s[i]);
    }
    assert s[..|major|] == major && s[|major| + 1..] == minor;
  }

  lemma PadStartValue(digits: string, width: nat)
    requires AllDigits(digits)
    ensures AllDigits(PadStart(digits, width)) && Value(PadStart(digits, width)) == Value(digits)
    ensures |PadStart(digits, width)| >= width
  {
    if |digits| < width {
      ValueConcat(Zeros(width - |digits|), digits);
    }
  }

  /** The padded text splits into a major and a two-digit minor part carrying the whole value. */
  lemma SplitValue(digits: string)
    requires AllDigits(digits)
    ensures AllDigits(Major(digits)) && AllDigits(Minor(digits)) && |Minor(digits)| == 2
    ensures Value(Major(digits)) * 100 + Value(Minor(digits)) == Value(digits)
  {
    assert Pow10(2) == 100 by { assert Pow10(1) == 10; }
    PadStartValue(digits, MINOR_DIGITS + 1);
    hide Value, PadStart;
    assert PadStart(digits, MINOR_DIGITS + 1) == Major(digits) + Minor(digits);
    ValueConcat(Major(digits), Minor(digits));
  }

  /** What is left of the shown text after cleaning: major digits, a point, two minor digits. */
  lemma CleanedText(major: string, minor: string, indian: bool)
    requires AllDigits(major) && AllDigits(minor)
    ensures Cleaned(Grouped(major, indian) + "." + minor) == major + "." + minor
  {
    CleanedConcat(Grouped(major, indian) + ".", minor);
    CleanedConcat(Grouped(major, indian), ".");
    assert Cleaned(".") == ".";
    CleanedGrouped(major, indian);
    CleanedDigits(minor);
  }

  /** What the parser makes of text that cleans to a major and a two-digit minor part. */
  lemma ParseParts(text: string, major: string, minor: string)
    requires AllDigits(major) && |major| > 0 && AllDigits(minor) && |minor| == 2
    requires Cleaned(text) == major + "." + minor
    ensures var total := Value(major) * 100 + Value(minor);
      ParseMajorToMinor(text) == if total > 0 then Some(Decimal(total)) else None
  {
    hide Cleaned, Match, Decimal, Value, AllDigits;
    MatchParts(major, minor);
    PadEndFull(minor);
  }

  lemma PadEndFull(s: string)
    requires |s| == MINOR_DIGITS
    ensures PadEnd(s, MINOR_DIGITS) == s
  {
  }

  lemma FormatParts(digits: string, indian: bool)
    requires AllDigits(digits) && AllDigits(Major(digits))
    ensures FormatDigits(digits, indian) ==
      Grouped(Decimal(Value(Major(digits))), indian) + "." + Minor(digits)
  {
    hide Grouped, Decimal, Value, Major, Minor, AllDigits;
  }

  lemma FormatCleaned(digits: string, indian: bool)
    requires Canonical(digits)
    ensures AllDigits(Major(digits)) && AllDigits(Minor(digits))
    ensures Cleaned(FormatDigits(digits, indian)) == Decimal(Value(Major(digits))) + "." + Minor(digits)
  {
    hide Grouped, Cleaned, Decimal, Value, Major, Minor, FormatDigits, AllDigits;
    SplitValue(digits);
    FormatParts(digits, indian);
    CleanedText(Decimal(Value(Major(digits))), Minor(digits), indian);
  }

  /** Formatting and parsing back gives the same digits, for every positive amount and both groupings. */
  lemma FormatThenParse(digits: string, indian: bool)
    requires Canonical(digits)
    ensures ParseMajorToMinor(FormatDigits(digits, indian)) == Some(digits)
  {
    hide Cleaned, Decimal, Value, Major, Minor, ParseMajorToMinor, FormatDigits, AllDigits;
    SplitValue(digits);
    CanonicalPositive(digits);
    DecimalOfValue(digits);
    FormatCleaned(digits, indian);
    ParseParts(FormatDigits(digits, indian), Decimal(Value(Major(digits))), Minor(digits));
  }

  /**
   * On any input at all the parser answers null or a positive decimal without leading zeros; and
   * its answer is a fixed point of showing and parsing again.
   */
  lemma ParsedIsCanonical(input: string, indian: bool)
    ensures var r := ParseMajorToMinor(input);
      r.Some? ==> Canonical(r.value) && ParseMajorToMinor(FormatDigits(r.value, indian)) == r
  {
    var r := ParseMajorToMinor(input);
    if r.Some? {
      FormatThenParse(r.value, indian);
    }
  }

  lemma FirstKept(s: string)
    requires |s| > 0 && s[0] != ',' && !IsSpace(s[0])
    ensures |Cleaned(s)| > 0 && Cleaned(s)[0] == s[0]
  {
  }

  lemma NoMatch(s: string)
    requires |s| > 0 && !IsDigit(s[0]) && s[0] != '.'
    ensures Match(s) == None
  {
    var dot := IndexOf(s, '.');
    assert dot > 0 && s[..dot][0] == s[0];
  }

  /** Text with its currency symbol or a minus sign is never taken for an amount. */
  lemma SymbolIsRefused(amount: string, currency: string)
    requires Amount(amount) && (currency == "INR" || currency == "USD")
    ensures ParseMajorToMinor(FormatMinor(amount, currency)) == None
  {
    var text := FormatMinor(amount, currency);
    hide FormatDigits, Cleaned, Match;
    assert text[0] == '\U{2212}' || text[0] == '$' || text[0] == '\U{20B9}';
    FirstKept(text);
    NoMatch(Cleaned(text));
  }

  // ---------------------------------------------------------------- what typed text means

  /** The amount's minor units as text, or nothing for zero. */
  function Positive(minor: nat): Option<string> {
    if minor > 0 then Some(Decimal(minor)) else None
  }

  /** Digits, and perhaps a point with one or two more digits. */
  predicate Typed(s: string, major: string, minor: string) {
    && AllDigits(major) && |major| > 0 && AllDigits(minor) && |minor| <= 2
    && s == if |minor| == 0 then major else major + "." + minor
  }

  /** The hundredths that decimals stand for: one decimal counts tenths. */
  function Hundredths(minor: string): nat
    requires AllDigits(minor) && |minor| <= 2
  {
    if |minor| == 0 then 0
    else if |minor| == 1 then 10 * DigitValue(minor[0])
    else 10 * DigitValue(minor[0]) + DigitValue(minor[1])
  }

  lemma PaddedValue(minor: string)
    requires AllDigits(minor) && |minor| <= 2
    ensures AllDigits(PadEnd(minor, MINOR_DIGITS)) && Value(PadEnd(minor, MINOR_DIGITS)) == Hundredths(minor)
  {
    hide Value;
    PadEndIs(minor);
    TwoDigitValue(PadEnd(minor, MINOR_DIGITS));
  }

  lemma PadEndIs(minor: string)
    requires |minor| <= 2
    ensures PadEnd(minor, MINOR_DIGITS) ==
      if |minor| == 0 then ['0', '0'] else if |minor| == 1 then [minor[0], '0'] else minor
  {
    assert Zeros(0) == "" && Zeros(1) == ['0'] && Zeros(2) == ['0', '0'];
  }

  lemma TwoDigitValue(s: string)
    requires AllDigits(s) && |s| == 2
    ensures Value(s) == 10 * DigitValue(s[0]) + DigitValue(s[1])
  {
    assert s[..1] == [s[0]] && s[..1][..0] == "" && Value(s[..1]) == DigitValue(s[0]);
  }

  lemma MatchTyped(s: string, major: string, minor: string)
    requires Typed(s, major, minor)
    ensures Match(s) == Some((major, minor))
  {
    var i := IndexOf(s, '.');
    if |minor| == 0 {
      assert i == |s| by { assert i < |s| ==> IsDigit(s[i]); }
      assert s[..i] == major;
    } else {
      assert s[|major|] == '.';
      assert i == |major| by { assert i < |major| ==> IsDigit(s[i]); }
      assert s[..i] == major && s[i + 1..] == minor;
    }
  }

  lemma MatchedIsTyped(s: string)
    requires Match(s).Some?
    ensures Typed(s, Match(s).value.0, Match(s).value.1)
  {
    var dot := IndexOf(s, '.');
    if dot < |s| { assert s == s[..dot] + "." + s[dot + 1..]; }
  }

  /**
   * Exactly what the parser makes of any input: without its commas and spaces it must be digits, or
   * digits, a point and one or two digits, and then it stands for hundred times the whole part plus
   * the hundredths; an amount of zero and any other text are refused.
   */
  lemma ParsedIs(input: string, major: string, minor: string)
    ensures Typed(Cleaned(input), major, minor) ==>
      ParseMajorToMinor(input) == Positive(100 * Value(major) + Hundredths(minor))
    ensures (forall a, b :: !Typed(Cleaned(input), a, b)) ==> ParseMajorToMinor(input) == None
  {
    hide Cleaned, Value, PadEnd;
    if Typed(Cleaned(input), major, minor) {
      MatchTyped(Cleaned(input), major, minor);
      PaddedValue(minor);
    }
    if Match(Cleaned(input)).Some? { MatchedIsTyped(Cleaned(input)); }
  }

  /** Cleaning keeps every character but commas and white space, in order. */
  lemma CleanedIs(a: string, c: char, b: string)
    ensures Cleaned(a + [c] + b) == Cleaned(a) + (if c == ',' || IsSpace(c) then "" else [c]) + Cleaned(b)
    ensures Cleaned("") == ""
  {
    CleanedConcat(a + [c], b);
    CleanedConcat(a, [c]);
    assert [c][1..] == "" && [c] + "" == [c];
  }

  /** White space as ECMAScript has it: tab to carriage return, space separators, line ends, the byte order mark. */
  lemma SpacesAre(c: char)
    ensures var n := c as int;
      IsSpace(c) <==>
        || 9 <= n <= 13 || n == 32 || n == 160 || n == 0x1680 || 0x2000 <= n <= 0x200A
        || n == 0x2028 || n == 0x2029 || n == 0x202F || n == 0x205F || n == 0x3000 || n == 0xFEFF
  {
  }

  // ---------------------------------------------------------------- what shown text looks like

  /** The `p`-th place from the right. */
  function FromRight(s: string, p: nat): char
    requires p < |s|
  {
    s[|s| - 1 - p]
  }

  /** The digit that stands at place `p` from the right, commas between every `size` digits left out. */
  function DigitPlace(p: nat, size: nat): nat
    requires size == 2 || size == 3
  {
    if size == 2 then p - p / 3 else p - p / 4
  }

  predicate CommaPlace(p: nat, size: nat)
    requires size == 2 || size == 3
  {
    if size == 2 then p % 3 == 2 else p % 4 == 3
  }

  lemma NextGroup(p: nat, size: nat)
    requires (size == 2 || size == 3) && p > size
    ensures DigitPlace(p, size) == DigitPlace(p - size - 1, size) + size
    ensures CommaPlace(p, size) == CommaPlace(p - size - 1, size)
  {
  }

  lemma FirstGroup(p: nat, size: nat)
    requires (size == 2 || size == 3) && p <= size
    ensures CommaPlace(p, size) <==> p == size
    ensures p < size ==> DigitPlace(p, size) == p
  {
  }

  function Commas(digits: nat, size: nat): nat
    requires size == 2 || size == 3
  {
    if digits == 0 then 0 else if size == 2 then (digits - 1) / 2 else (digits - 1) / 3
  }

  /** Every `size` digits from the right a comma, as long as digits follow to its left. */
  lemma {:induction false} GroupsFromRight(s: string, size: nat, p: nat)
    requires (size == 2 || size == 3) && |s| > 0
    ensures |GroupBy(s, size)| == |s| + Commas(|s|, size)
    ensures p < |GroupBy(s, size)| ==>
      if CommaPlace(p, size) then FromRight(GroupBy(s, size), p) == ','
      else DigitPlace(p, size) < |s| && FromRight(GroupBy(s, size), p) == FromRight(s, DigitPlace(p, size))
  {
    hide DigitPlace, CommaPlace, FromRight;
    if |s| > size {
      var head, tail := s[..|s| - size], s[|s| - size..];
      var grouped := GroupBy(head, size) + "," + tail;
      assert s == head + tail;
      if p > size {
        NextGroup(p, size);
        GroupsFromRight(head, size, p - size - 1);
        if p < |grouped| {
          FromRightOf(GroupBy(head, size) + ",", tail, p);
          FromRightOf(GroupBy(head, size), ",", p - size);
          if !CommaPlace(p, size) { FromRightOf(head, tail, DigitPlace(p, size)); }
        }
      } else {
        FirstGroup(p, size);
        GroupsFromRight(head, size, 0);
        FromRightOf(GroupBy(head, size) + ",", tail, p);
        if p < size { FromRightOf(head, tail, p); } else { FromRightOf(GroupBy(head, size), ",", 0); }
      }
    } else {
      FirstGroup(if p <= size then p else 0, size);
    }
  }

  lemma FromRightOf(a: string, b: string, p: nat)
    requires p < |a + b|
    ensures FromRight(a + b, p) == if p < |b| then FromRight(b, p) else FromRight(a, p - |b|)
    ensures FromRight(",", 0) == ','
  {
  }

  /**
   * Where the commas of a shown number stand, counted from the right: after every third digit, or,
   * the Indian way, after the third and then after every second.  Nothing else is added and no digit moved.
   */
  lemma GroupedFromRight(s: string, indian: bool, p: nat)
    requires |s| > 0
    ensures var shown := Grouped(s, indian);
      && |shown| == |s| + (if !indian then (|s| - 1) / 3 else if |s| <= 3 then 0 else 1 + (|s| - 4) / 2)
      && (p < |shown| && !indian ==>
            if p % 4 == 3 then FromRight(shown, p) == ','
            else p - p / 4 < |s| && FromRight(shown, p) == FromRight(s, p - p / 4))
      && (p < |shown| && indian ==>
            if p < 3 then p < |s| && FromRight(shown, p) == FromRight(s, p)
            else if p == 3 || (p - 4) % 3 == 2 then FromRight(shown, p) == ','
            else
              var q := 3 + (p - 4 - (p - 4) / 3);
              q < |s| && FromRight(shown, p) == FromRight(s, q))
  {
    if !indian {
      GroupsFromRight(s, 3, p);
    } else if |s| > 3 {
      var head, tail := s[..|s| - 3], s[|s| - 3..];
      assert Grouped(s, indian) == GroupBy(head, 2) + "," + tail;
      GroupsFromRight(head, 2, if p >= 4 then p - 4 else 0);
      hide GroupBy;
    }
  }

  /** The minus sign, then the currency's symbol, or its code and a space; the rupee is grouped the Indian way. */
  lemma ShownIs(digits: string, currency: string)
    requires AllDigits(digits) && |digits| > 0
    ensures FormatMinor("-" + digits, currency) == "\U{2212}" + FormatMinor(digits, currency)
    ensures FormatMinor(digits, "INR") == "\U{20B9}" + FormatDigits(digits, true)
    ensures FormatMinor(digits, "USD") == "$" + FormatDigits(digits, false)
    ensures currency != "INR" && currency != "USD" ==>
      FormatMinor(digits, currency) == currency + " " + FormatDigits(digits, false)
  {
    hide FormatDigits;
    assert ("-" + digits)[1..] == digits;
    assert "" + Symbol("INR") == "\U{20B9}" && "" + Symbol("USD") == "$" && "" + Symbol(currency) == Symbol(currency);
  }

  /** The grouped whole part without leading zeros, a point, and two decimals. */
  lemma DigitsShown(digits: string, indian: bool)
    requires AllDigits(digits) && |digits| > 0
    ensures var n := Value(digits);
      FormatDigits(digits, indian) ==
        Grouped(Decimal(n / 100), indian) + "." + ([DigitChar(n / 10 % 10)] + [DigitChar(n % 10)])
  {
    hide Major, Minor, Value, Decimal, Grouped, AllDigits, FormatDigits, DigitChar;
    MajorMinor(digits);
    FormatParts(digits, indian);
  }

  lemma MajorMinor(digits: string)
    requires AllDigits(digits) && |digits| > 0
    ensures AllDigits(Major(digits)) && AllDigits(Minor(digits))
    ensures Value(Major(digits)) == Value(digits) / 100
    ensures Minor(digits) == [DigitChar(Value(digits) / 10 % 10)] + [DigitChar(Value(digits) % 10)]
  {
    hide PadStart, Major, Minor, Value, AllDigits, DigitChar;
    SplitValue(digits);
    TwoDigits(Minor(digits), Value(Major(digits)));
  }

  /** Two digits below some hundreds are its tens and its units. */
  lemma TwoDigits(minor: string, major: nat)
    requires AllDigits(minor) && |minor| == 2
    ensures var n := 100 * major + Value(minor);
      n / 100 == major && minor == [DigitChar(n / 10 % 10)] + [DigitChar(n % 10)]
  {
    TwoDigitValue(minor);
    var tens, units := DigitValue(minor[0]), DigitValue(minor[1]);
    TensAndUnits(major, tens, units);
    hide Value, DigitChar, DigitValue;
    DigitCharOf(minor[0]);
    DigitCharOf(minor[1]);
  }

  lemma TensAndUnits(hundreds: nat, tens: nat, units: nat)
    requires tens < 10 && units < 10
    ensures var n := 100 * hundreds + (10 * tens + units);
      n / 100 == hundreds && n / 10 % 10 == tens && n % 10 == units
  {
  }

  lemma DigitCharOf(c: char)
    requires IsDigit(c)
    ensures DigitChar(DigitValue(c)) == c
  {
  }

  lemma SmallDecimals()
    ensures Decimal(2) == "2" && Decimal(25) == "25" && Decimal(250) == "250" && Decimal(2500) == "2500"
    ensures Decimal(25005) == "25005" && Decimal(250050) == "250050"
    ensures Decimal(25000) == "25000" && Decimal(250000) == "250000" && Decimal(250005) == "250005"
  {
    DecimalStep(2, 5);
    DecimalStep(25, 0);
    DecimalStep(250, 0);
    DecimalStep(2500, 5);
    DecimalStep(2500, 0);
    DecimalStep(25005, 0);
    DecimalStep(25000, 0);
    DecimalStep(25000, 5);
  }

  lemma DecimalStep(n: nat, d: nat)
    requires n > 0 && d < 10
    ensures Decimal(10 * n + d) == Decimal(n) + [DigitChar(d)]
  {
  }

  lemma Value2500()
    ensures AllDigits("2500") && Value("2500") == 2500
  {
    SmallDecimals();
  }

  /** Digits around one other character. */
  lemma CleanedAround(a: string, c: char, b: string)
    requires AllDigits(a) && AllDigits(b)
    ensures Cleaned(a + [c] + b) == a + (if c == ',' || IsSpace(c) then "" else [c]) + b
  {
    hide IsSpace;
    CleanedIs(a, c, b);
    CleanedDigits(a);
    CleanedDigits(b);
  }

  lemma CleanedExamples()
    ensures Cleaned("2500") == "2500" && Cleaned("2,500.5") == "2500.5" && Cleaned("2500.05") == "2500.05"
  {
    hide Cleaned;
    CleanedDigits("2500");
    CleanedAround("2500", '.', "05");
    assert "2500" + ['.'] + "05" == "2500.05";
    CleanedAround("500", '.', "5");
    assert "500" + ['.'] + "5" == "500.5";
    CleanedIs("2", ',', "500.5");
    CleanedDigits("2");
    assert "2" + [','] + "500.5" == "2,500.5" && "2" + "" + "500.5" == "2500.5";
  }

  lemma TypedExamples()
    ensures Typed("2500", "2500", "") && Typed("2500.5", "2500", "5") && Typed("2500.05", "2500", "05")
    ensures Hundredths("") == 0 && Hundredths("5") == 50 && Hundredths("05") == 5
  {
    assert "2500" + "." + "5" == "2500.5" && "2500" + "." + "05" == "2500.05";
  }

  /** The examples the parser's documentation gives. */
  lemma DocumentedAmounts()
    ensures ParseMajorToMinor("2500") == Some("250000")
    ensures ParseMajorToMinor("2,500.5") == Some("250050")
    ensures ParseMajorToMinor("2500.05") == Some("250005")
  {
    hide Decimal, Value, ParseMajorToMinor, Typed, Cleaned, Hundredths, AllDigits;
    SmallDecimals();
    Value2500();
    CleanedExamples();
    TypedExamples();
    ParsedIs("2500", "2500", "");
    ParsedIs("2,500.5", "2500", "5");
    ParsedIs("2500.05", "2500", "05");
  }
}
